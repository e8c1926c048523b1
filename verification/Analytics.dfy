/**
 * The report-generation controller (backend/controllers/analyticsController.js):
 * one date filter shared by three aggregation passes, the report built from
 * their results, and the report-history query.
 */
module Analytics {
  import opened Wrappers
  import opened Stages
  import opened SaleModel
  import opened ProductModel
  import opened CustomerModel
  import opened ReportModel

  /** The collections the controller reads. */
  datatype Store = Store(sales: seq<Sale>, products: map<Id, Product>, customers: map<Id, Customer>)

  // ---------------------------------------------------------------- $match

  /** The `dateFilter`: `reportDate` between the two ends, both included. */
  predicate InRange(s: Sale, startDate: Date, endDate: Date) {
    startDate <= s.reportDate <= endDate
  }

  /**
   * `{ $match: dateFilter }`: keeps exactly the sales in range, each as many
   * times as it occurs in the collection.
   */
  function MatchDates(sales: seq<Sale>, startDate: Date, endDate: Date): (r: seq<Sale>)
    ensures forall x :: multiset(r)[x] == if InRange(x, startDate, endDate) then multiset(sales)[x] else 0
    ensures forall i :: 0 <= i < |r| ==> InRange(r[i], startDate, endDate)
    ensures |r| <= |sales|
  {
    if |sales| == 0 then []
    else
      var rest := MatchDates(sales[1..], startDate, endDate);
      assert sales == [sales[0]] + sales[1..];
      if InRange(sales[0], startDate, endDate) then [sales[0]] + rest else rest
  }

  /** How many sales of the collection are in range. */
  function CountInRange(sales: seq<Sale>, startDate: Date, endDate: Date): nat {
    if |sales| == 0 then 0
    else (if InRange(sales[0], startDate, endDate) then 1 else 0) + CountInRange(sales[1..], startDate, endDate)
  }

  /** The stored revenue of the sales of the collection that are in range. */
  function RevenueInRange(sales: seq<Sale>, startDate: Date, endDate: Date): real {
    if |sales| == 0 then 0.0
    else (if InRange(sales[0], startDate, endDate) then sales[0].totalRevenue else 0.0)
         + RevenueInRange(sales[1..], startDate, endDate)
  }

  /** Sum of the stored `totalRevenue` of the sales. */
  function SumRevenue(sales: seq<Sale>): real {
    if |sales| == 0 then 0.0 else sales[0].totalRevenue + SumRevenue(sales[1..])
  }

  lemma {:induction false} MatchDatesTotals(sales: seq<Sale>, startDate: Date, endDate: Date)
    ensures |MatchDates(sales, startDate, endDate)| == CountInRange(sales, startDate, endDate)
    ensures SumRevenue(MatchDates(sales, startDate, endDate)) == RevenueInRange(sales, startDate, endDate)
  {
    if |sales| > 0 {
      MatchDatesTotals(sales[1..], startDate, endDate);
      var rest := MatchDates(sales[1..], startDate, endDate);
      assert ([sales[0]] + rest)[1..] == rest;
    }
  }

  lemma {:induction false} SumRevenueNonNegative(sales: seq<Sale>)
    requires AllValid(sales)
    ensures SumRevenue(sales) >= 0.0
  {
    if |sales| > 0 {
      SumRevenueNonNegative(sales[1..]);
    }
  }

  // ---------------------------------------------------------------- KPI pass

  /** The one document the KPI `$group` + `$project` produce. */
  datatype KpiRow = KpiRow(totalRevenue: real, totalSales: real, avgOrderValue: real)

  /**
   * The `$group` with `_id: null` as a single pass: the running revenue sum
   * and the running count (`$sum: 1`), started from `revenue` and `count`.
   */
  function Tally(sales: seq<Sale>, revenue: real, count: nat): (r: (real, nat))
    ensures r.0 == revenue + SumRevenue(sales)
    ensures r.1 == count + |sales|
  {
    if |sales| == 0 then (revenue, count)
    else Tally(sales[1..], revenue + sales[0].totalRevenue, count + 1)
  }

  /**
   * KPI pipeline: no document at all when nothing matched, otherwise one
   * holding the revenue sum, the count and the zero-guarded average.
   */
  function KpiPipeline(matched: seq<Sale>): (rows: seq<KpiRow>)
    ensures |matched| == 0 ==> rows == []
    ensures |matched| > 0 ==> |rows| == 1
    ensures forall row :: row in rows ==>
      && row.totalSales == |matched| as real
      && row.totalRevenue == SumRevenue(matched)
      && row.avgOrderValue == row.totalRevenue / row.totalSales
  {
    if |matched| == 0 then []
    else
      var (revenue, count) := Tally(matched, 0.0, 0);
      var totalSales := count as real;
      [KpiRow(revenue, totalSales, if totalSales == 0.0 then 0.0 else revenue / totalSales)]
  }

  /** `kpiMetrics[0] || { totalRevenue: 0, totalSales: 0, avgOrderValue: 0 }`. */
  function ReportData(rows: seq<KpiRow>): KpiRow {
    if |rows| > 0 then rows[0] else KpiRow(0.0, 0.0, 0.0)
  }

  /**
   * The KPI values the report receives: count and revenue sum of the matched
   * sales, and their quotient, which is exactly 0 when nothing matched.
   */
  lemma KpiValues(matched: seq<Sale>)
    ensures ReportData(KpiPipeline(matched)).totalSales == |matched| as real
    ensures ReportData(KpiPipeline(matched)).totalRevenue == SumRevenue(matched)
    ensures ReportData(KpiPipeline(matched)).avgOrderValue
            == if |matched| > 0 then SumRevenue(matched) / (|matched| as real) else 0.0
  {
    var rows := KpiPipeline(matched);
    if |matched| == 0 {
      assert ReportData(rows) == KpiRow(0.0, 0.0, 0.0);
    } else {
      var row := rows[0];
      assert row in rows;
      assert ReportData(rows) == row;
    }
  }

  // ---------------------------------------------------------------- top-products pass

  /** The rows of the product `$group`: `_id: '$productId'`, summing `'$quantity'`. */
  function QuantityEntries(sales: seq<Sale>): (r: seq<Entry<Id>>)
    ensures |r| == |sales|
    ensures forall i :: 0 <= i < |r| ==> r[i] == Entry(sales[i].productId, sales[i].quantity)
  {
    if |sales| == 0 then [] else [Entry(sales[0].productId, sales[0].quantity)] + QuantityEntries(sales[1..])
  }

  /** The quantity sold of product `pid` over the given sales. */
  function QuantitySold(sales: seq<Sale>, pid: Id): real {
    if |sales| == 0 then 0.0
    else (if sales[0].productId == pid then sales[0].quantity else 0.0) + QuantitySold(sales[1..], pid)
  }

  /** The products that occur among the sales. */
  function ProductIds(sales: seq<Sale>): set<Id> {
    set i | 0 <= i < |sales| :: sales[i].productId
  }

  lemma {:induction false} QuantityEntriesSum(sales: seq<Sale>, pid: Id)
    ensures SumFor(QuantityEntries(sales), pid) == QuantitySold(sales, pid)
  {
    if |sales| > 0 {
      QuantityEntriesSum(sales[1..], pid);
      assert QuantityEntries(sales)[1..] == QuantityEntries(sales[1..]);
    }
  }

  lemma QuantityEntriesKeys(sales: seq<Sale>)
    ensures RowKeys(QuantityEntries(sales)) == ProductIds(sales)
  {
    var rows := QuantityEntries(sales);
    forall k | k in ProductIds(sales) ensures k in RowKeys(rows) {
      var i :| 0 <= i < |sales| && sales[i].productId == k;
      assert rows[i].key == k;
    }
  }

  /**
   * `$group` by product then `$sort: { totalQuantity: -1 }`: one group per
   * product sold, holding that product's quantity sold, largest first.
   */
  function RankProducts(matched: seq<Sale>): (r: seq<Bucket<Id>>)
    ensures DistinctKeys(r)
    ensures KeySet(r) == ProductIds(matched)
    ensures |r| == |ProductIds(matched)|
    ensures NonIncreasing(r, TotalOf)
    ensures forall i :: 0 <= i < |r| ==> r[i].total == QuantitySold(matched, r[i].key)
  {
    RankProductsKeys(matched);
    RankProductsTotals(matched);
    SortDesc(GroupSum(QuantityEntries(matched)), TotalOf)
  }

  lemma RankProductsKeys(matched: seq<Sale>)
    ensures var r := SortDesc(GroupSum(QuantityEntries(matched)), TotalOf);
      DistinctKeys(r) && KeySet(r) == ProductIds(matched) && |r| == |ProductIds(matched)|
  {
    var r := SortDesc(GroupSum(QuantityEntries(matched)), TotalOf);
    SortDistinct(GroupSum(QuantityEntries(matched)));
    QuantityEntriesKeys(matched);
    DistinctKeysCount(r);
  }

  lemma RankProductsTotals(matched: seq<Sale>)
    ensures var r := SortDesc(GroupSum(QuantityEntries(matched)), TotalOf);
      forall i :: 0 <= i < |r| ==> r[i].total == QuantitySold(matched, r[i].key)
  {
    var groups := GroupSum(QuantityEntries(matched));
    var r := SortDesc(groups, TotalOf);
    assert forall b :: b in groups ==> b.total == SumFor(QuantityEntries(matched), b.key);
    forall i | 0 <= i < |r| ensures r[i].total == QuantitySold(matched, r[i].key) {
      assert r[i] in groups;
      QuantityEntriesSum(matched, r[i].key);
    }
  }

  /** A product group after `$lookup` + `$unwind`: the group and the one Product it joined. */
  datatype JoinedProduct = JoinedProduct(productId: Id, product: Product, totalQuantity: real)

  function JoinedQuantity(j: JoinedProduct): real {
    j.totalQuantity
  }

  /** Each product occurs at most once. */
  ghost predicate DistinctProducts(js: seq<JoinedProduct>) {
    forall i, j :: 0 <= i < j < |js| ==> js[i].productId != js[j].productId
  }

  /**
   * `$lookup` from products on `_id`, then `$unwind`: a group whose product
   * is missing produces nothing; every other group is joined to its product,
   * in the same order.
   */
  function LookupProducts(groups: seq<Bucket<Id>>, products: map<Id, Product>): (r: seq<JoinedProduct>)
    ensures |r| <= |groups|
    ensures |r| == |groups| <==> forall i :: 0 <= i < |groups| ==> groups[i].key in products
    ensures forall i :: 0 <= i < |r| ==>
      && r[i].productId in products
      && r[i].product == products[r[i].productId]
      && Bucket(r[i].productId, r[i].totalQuantity) in groups
  {
    if |groups| == 0 then []
    else
      var g := groups[0];
      var rest := LookupProducts(groups[1..], products);
      assert groups == [g] + groups[1..];
      if g.key in products then
        [JoinedProduct(g.key, products[g.key], g.total)] + rest
      else
        assert !(forall i :: 0 <= i < |groups| ==> groups[i].key in products);
        rest
  }

  /** A group whose product exists is never dropped by the join. */
  lemma {:induction false} LookupKeeps(groups: seq<Bucket<Id>>, products: map<Id, Product>, m: nat)
    requires m < |groups| && groups[m].key in products
    ensures JoinedProduct(groups[m].key, products[groups[m].key], groups[m].total) in LookupProducts(groups, products)
  {
    if m > 0 {
      LookupKeeps(groups[1..], products, m - 1);
    }
  }

  /** A product that no group names is absent from the join. */
  lemma {:induction false} LookupAvoids(groups: seq<Bucket<Id>>, products: map<Id, Product>, k: Id)
    requires forall i :: 0 <= i < |groups| ==> groups[i].key != k
    ensures forall i :: 0 <= i < |LookupProducts(groups, products)| ==> LookupProducts(groups, products)[i].productId != k
  {
    if |groups| > 0 {
      LookupAvoids(groups[1..], products, k);
    }
  }

  /** Groups with distinct products join to entries with distinct products. */
  lemma {:induction false} LookupDistinct(groups: seq<Bucket<Id>>, products: map<Id, Product>)
    requires DistinctKeys(groups)
    ensures DistinctProducts(LookupProducts(groups, products))
  {
    if |groups| > 0 {
      var g := groups[0];
      var tail := groups[1..];
      assert DistinctKeys(tail);
      LookupDistinct(tail, products);
      var rest := LookupProducts(tail, products);
      if g.key in products {
        assert forall i :: 0 <= i < |tail| ==> tail[i].key != g.key by {
          forall i | 0 <= i < |tail| ensures tail[i].key != g.key {
            assert tail[i] == groups[i + 1];
          }
        }
        LookupAvoids(tail, products, g.key);
        var r := [JoinedProduct(g.key, products[g.key], g.total)] + rest;
        forall i, j | 0 <= i < j < |r| ensures r[i].productId != r[j].productId {
          assert r[j] == rest[j - 1];
          if i > 0 {
            assert r[i] == rest[i - 1];
          }
        }
      }
    }
  }

  /** No joined entry has a larger quantity than the largest group. */
  lemma {:induction false} LookupBounded(groups: seq<Bucket<Id>>, products: map<Id, Product>, bound: real)
    requires forall i :: 0 <= i < |groups| ==> groups[i].total <= bound
    ensures forall i :: 0 <= i < |LookupProducts(groups, products)| ==> LookupProducts(groups, products)[i].totalQuantity <= bound
  {
    if |groups| > 0 {
      LookupBounded(groups[1..], products, bound);
    }
  }

  /** No joined entry has a smaller quantity than the smallest group. */
  lemma {:induction false} LookupAtLeast(groups: seq<Bucket<Id>>, products: map<Id, Product>, bound: real)
    requires forall i :: 0 <= i < |groups| ==> groups[i].total >= bound
    ensures forall i :: 0 <= i < |LookupProducts(groups, products)| ==> LookupProducts(groups, products)[i].totalQuantity >= bound
  {
    if |groups| > 0 {
      LookupAtLeast(groups[1..], products, bound);
    }
  }

  /** The join keeps the order of the groups. */
  lemma {:induction false} LookupOrder(groups: seq<Bucket<Id>>, products: map<Id, Product>)
    requires NonIncreasing(groups, TotalOf)
    ensures NonIncreasing(LookupProducts(groups, products), JoinedQuantity)
  {
    if |groups| > 0 {
      var g := groups[0];
      var tail := groups[1..];
      assert NonIncreasing(tail, TotalOf);
      LookupOrder(tail, products);
      if g.key in products {
        var rest := LookupProducts(tail, products);
        var head := JoinedProduct(g.key, products[g.key], g.total);
        assert forall i :: 0 <= i < |tail| ==> tail[i].total <= g.total by {
          forall i | 0 <= i < |tail| ensures tail[i].total <= g.total {
            assert TotalOf(groups[0]) >= TotalOf(groups[i + 1]);
          }
        }
        LookupBounded(tail, products, g.total);
        assert forall i :: 0 <= i < |rest| ==> JoinedQuantity(rest[i]) <= JoinedQuantity(head);
        PrependOrdered(head, rest, JoinedQuantity);
      }
    }
  }

  /** The `$limit` of the top-products pipeline. */
  const TopProductsLimit: nat := 5

  /**
   * The top-products pipeline up to the join: the five best-selling groups,
   * of which those without a product are dropped and not replaced.
   */
  function TopProductDocs(matched: seq<Sale>, products: map<Id, Product>): (r: seq<JoinedProduct>)
    ensures |r| <= TopProductsLimit
    ensures NonIncreasing(r, JoinedQuantity)
    ensures DistinctProducts(r)
    ensures forall i :: 0 <= i < |r| ==>
      && r[i].productId in products
      && r[i].product == products[r[i].productId]
      && r[i].productId in ProductIds(matched)
      && r[i].totalQuantity == QuantitySold(matched, r[i].productId)
  {
    TopProductFacts(matched, products);
    LookupProducts(Take(RankProducts(matched), TopProductsLimit), products)
  }

  lemma TopProductFacts(matched: seq<Sale>, products: map<Id, Product>)
    ensures var r := LookupProducts(Take(RankProducts(matched), TopProductsLimit), products);
      && NonIncreasing(r, JoinedQuantity)
      && DistinctProducts(r)
      && forall i :: 0 <= i < |r| ==>
           r[i].productId in ProductIds(matched) && r[i].totalQuantity == QuantitySold(matched, r[i].productId)
  {
    var ranked := RankProducts(matched);
    var top := Take(ranked, TopProductsLimit);
    TakeKeepsRanking(ranked, TopProductsLimit);
    LookupDistinct(top, products);
    LookupOrder(top, products);
    TopProductSums(matched, products);
  }

  /** A prefix of a ranking is a ranking. */
  lemma TakeKeepsRanking(ranked: seq<Bucket<Id>>, n: nat)
    requires DistinctKeys(ranked) && NonIncreasing(ranked, TotalOf)
    ensures DistinctKeys(Take(ranked, n)) && NonIncreasing(Take(ranked, n), TotalOf)
  {
    assert forall i :: 0 <= i < |Take(ranked, n)| ==> Take(ranked, n)[i] == ranked[i];
  }

  lemma TopProductSums(matched: seq<Sale>, products: map<Id, Product>)
    ensures var r := LookupProducts(Take(RankProducts(matched), TopProductsLimit), products);
      forall i :: 0 <= i < |r| ==>
        r[i].productId in ProductIds(matched) && r[i].totalQuantity == QuantitySold(matched, r[i].productId)
  {
    var ranked := RankProducts(matched);
    var top := Take(ranked, TopProductsLimit);
    var r := LookupProducts(top, products);
    forall i | 0 <= i < |r|
      ensures r[i].productId in ProductIds(matched) && r[i].totalQuantity == QuantitySold(matched, r[i].productId)
    {
      var b := Bucket(r[i].productId, r[i].totalQuantity);
      var m :| 0 <= m < |top| && top[m] == b;
      assert ranked[m] == b;
      assert b.key in KeySet(ranked);
    }
  }

  /** `$project`: each surviving group becomes `{ name, totalQuantity }`. */
  function ProjectProducts(js: seq<JoinedProduct>): (r: seq<TopProduct>)
    ensures |r| == |js|
    ensures forall i :: 0 <= i < |r| ==> r[i].name == js[i].product.name && r[i].totalQuantity == js[i].totalQuantity
  {
    if |js| == 0 then [] else [TopProduct(js[0].product.name, js[0].totalQuantity)] + ProjectProducts(js[1..])
  }

  /** `t` names a stored product sold in range and carries that product's quantity sold. */
  ghost predicate SoldProductEntry(t: TopProduct, matched: seq<Sale>, products: map<Id, Product>) {
    exists pid :: pid in products && pid in ProductIds(matched)
      && t.name == products[pid].name && t.totalQuantity == QuantitySold(matched, pid)
  }

  /**
   * `topSellingProducts`: at most five entries, largest quantity first; each
   * entry is the name of a stored product sold in range and that product's
   * quantity sold in range.
   */
  function TopSellingProducts(matched: seq<Sale>, products: map<Id, Product>): (r: seq<TopProduct>)
    ensures |r| <= TopProductsLimit
    ensures forall i, j :: 0 <= i < j < |r| ==> r[i].totalQuantity >= r[j].totalQuantity
    ensures forall i :: 0 <= i < |r| ==> SoldProductEntry(r[i], matched, products)
  {
    ProjectedOrder(TopProductDocs(matched, products));
    ProjectedEntries(matched, products);
    ProjectProducts(TopProductDocs(matched, products))
  }

  lemma ProjectedOrder(docs: seq<JoinedProduct>)
    requires NonIncreasing(docs, JoinedQuantity)
    ensures var r := ProjectProducts(docs);
      forall i, j :: 0 <= i < j < |r| ==> r[i].totalQuantity >= r[j].totalQuantity
  {
    var r := ProjectProducts(docs);
    forall i, j | 0 <= i < j < |r| ensures r[i].totalQuantity >= r[j].totalQuantity {
      assert JoinedQuantity(docs[i]) >= JoinedQuantity(docs[j]);
    }
  }

  lemma ProjectedEntries(matched: seq<Sale>, products: map<Id, Product>)
    ensures var r := ProjectProducts(TopProductDocs(matched, products));
      forall i :: 0 <= i < |r| ==> SoldProductEntry(r[i], matched, products)
  {
    var docs := TopProductDocs(matched, products);
    var r := ProjectProducts(docs);
    forall i | 0 <= i < |r| ensures SoldProductEntry(r[i], matched, products) {
      var pid := docs[i].productId;
      assert pid in products && pid in ProductIds(matched);
      assert r[i].name == products[pid].name && r[i].totalQuantity == QuantitySold(matched, pid);
    }
  }

  /**
   * The limit comes before the join: the entries are exactly the five
   * best-selling groups that have their product, each joined to it. So the
   * result is as long as it can be exactly when every one of those groups
   * has its product, and a group without one is not replaced by the sixth.
   */
  lemma NoBackfill(matched: seq<Sale>, products: map<Id, Product>)
    ensures var r := TopProductDocs(matched, products);
      forall i :: 0 <= i < |r| ==> Bucket(r[i].productId, r[i].totalQuantity) in Take(RankProducts(matched), TopProductsLimit)
    ensures forall k :: 0 <= k < Min(TopProductsLimit, |ProductIds(matched)|) && RankProducts(matched)[k].key in products ==>
      JoinedProduct(RankProducts(matched)[k].key, products[RankProducts(matched)[k].key], RankProducts(matched)[k].total)
        in TopProductDocs(matched, products)
    ensures |TopProductDocs(matched, products)| == Min(TopProductsLimit, |ProductIds(matched)|)
            <==> forall i :: 0 <= i < Min(TopProductsLimit, |ProductIds(matched)|) ==> RankProducts(matched)[i].key in products
  {
    var ranked := RankProducts(matched);
    var top := Take(ranked, TopProductsLimit);
    assert forall i :: 0 <= i < |top| ==> top[i] == ranked[i];
    forall k | 0 <= k < Min(TopProductsLimit, |ProductIds(matched)|) && ranked[k].key in products
      ensures JoinedProduct(ranked[k].key, products[ranked[k].key], ranked[k].total) in LookupProducts(top, products)
    {
      LookupKeeps(top, products, k);
    }
  }

  /**
   * On any ranking: a group with a product that the joined top groups do not
   * contain ranked below all of them.
   */
  lemma OmittedGroupRanksBelow(ranked: seq<Bucket<Id>>, products: map<Id, Product>, j: nat)
    requires NonIncreasing(ranked, TotalOf)
    requires j < |ranked| && ranked[j].key in products
    requires var docs := LookupProducts(Take(ranked, TopProductsLimit), products);
      forall i :: 0 <= i < |docs| ==> docs[i].productId != ranked[j].key
    ensures var docs := LookupProducts(Take(ranked, TopProductsLimit), products);
      forall i :: 0 <= i < |docs| ==> ranked[j].total <= docs[i].totalQuantity
  {
    var top := Take(ranked, TopProductsLimit);
    if j < |top| {
      assert top[j] == ranked[j];
      LookupKeeps(top, products, j);
      assert false;
    }
    assert forall m :: 0 <= m < |top| ==> top[m].total >= ranked[j].total by {
      forall m | 0 <= m < |top| ensures top[m].total >= ranked[j].total {
        assert top[m] == ranked[m];
        assert TotalOf(ranked[m]) >= TotalOf(ranked[j]);
      }
    }
    LookupAtLeast(top, products, ranked[j].total);
  }

  /**
   * A stored product that was sold in range but is missing from the result
   * sold no more than any product in it.
   */
  lemma TopProductsAreTop(matched: seq<Sale>, products: map<Id, Product>, pid: Id)
    requires pid in ProductIds(matched) && pid in products
    requires forall i :: 0 <= i < |TopProductDocs(matched, products)| ==> TopProductDocs(matched, products)[i].productId != pid
    ensures forall i :: 0 <= i < |TopProductDocs(matched, products)| ==>
      QuantitySold(matched, pid) <= TopProductDocs(matched, products)[i].totalQuantity
  {
    var ranked := RankProducts(matched);
    assert pid in KeySet(ranked);
    var j :| 0 <= j < |ranked| && ranked[j].key == pid;
    var docs := TopProductDocs(matched, products);
    assert docs == LookupProducts(Take(ranked, TopProductsLimit), products);
    assert ranked[j].total == QuantitySold(matched, pid);
    OmittedGroupRanksBelow(ranked, products, j);
  }

  // ---------------------------------------------------------------- region pass

  /** Whether the sale's customer reference resolves. */
  predicate HasCustomer(s: Sale, customers: map<Id, Customer>) {
    s.customerId in customers
  }

  /**
   * `$lookup` from customers on `customerId`, then `$unwind`, feeding the
   * region `$group`: a sale without a customer produces no row.
   */
  function RegionEntries(matched: seq<Sale>, customers: map<Id, Customer>): (r: seq<Entry<Region>>)
    ensures |r| <= |matched|
  {
    if |matched| == 0 then []
    else
      var s := matched[0];
      var rest := RegionEntries(matched[1..], customers);
      if HasCustomer(s, customers) then [Entry(customers[s.customerId].region, s.totalRevenue)] + rest else rest
  }

  /** Revenue of the sales whose customer is in region `g`. */
  function RegionRevenueOf(sales: seq<Sale>, customers: map<Id, Customer>, g: Region): real {
    if |sales| == 0 then 0.0
    else
      (if HasCustomer(sales[0], customers) && customers[sales[0].customerId].region == g
       then sales[0].totalRevenue else 0.0)
      + RegionRevenueOf(sales[1..], customers, g)
  }

  /** Revenue of the sales whose customer exists. */
  function ResolvedRevenue(sales: seq<Sale>, customers: map<Id, Customer>): real {
    if |sales| == 0 then 0.0
    else (if HasCustomer(sales[0], customers) then sales[0].totalRevenue else 0.0) + ResolvedRevenue(sales[1..], customers)
  }

  /** The regions of the customers of the sales, ignoring sales without one. */
  function RegionsPresent(sales: seq<Sale>, customers: map<Id, Customer>): set<Region> {
    set i | 0 <= i < |sales| && HasCustomer(sales[i], customers) :: customers[sales[i].customerId].region
  }

  lemma {:induction false} RegionEntriesSums(matched: seq<Sale>, customers: map<Id, Customer>)
    ensures forall g :: SumFor(RegionEntries(matched, customers), g) == RegionRevenueOf(matched, customers, g)
    ensures SumAll(RegionEntries(matched, customers)) == ResolvedRevenue(matched, customers)
  {
    if |matched| > 0 {
      RegionEntriesSums(matched[1..], customers);
      var rest := RegionEntries(matched[1..], customers);
      var s := matched[0];
      if HasCustomer(s, customers) {
        assert ([Entry(customers[s.customerId].region, s.totalRevenue)] + rest)[1..] == rest;
      }
    }
  }

  lemma RegionEntriesKeys(matched: seq<Sale>, customers: map<Id, Customer>)
    ensures RowKeys(RegionEntries(matched, customers)) == RegionsPresent(matched, customers)
    decreases |matched|
  {
    if |matched| > 0 {
      RegionEntriesKeys(matched[1..], customers);
      var s := matched[0];
      var present := RegionsPresent(matched, customers);
      var tail := RegionsPresent(matched[1..], customers);
      assert tail <= present by {
        forall g | g in tail ensures g in present {
          var i :| 0 <= i < |matched[1..]| && HasCustomer(matched[1..][i], customers)
                   && customers[matched[1..][i].customerId].region == g;
          assert matched[i + 1] == matched[1..][i];
        }
      }
      assert present <= tail + (if HasCustomer(s, customers) then {customers[s.customerId].region} else {}) by {
        forall g | g in present
          ensures g in tail + (if HasCustomer(s, customers) then {customers[s.customerId].region} else {})
        {
          var i :| 0 <= i < |matched| && HasCustomer(matched[i], customers) && customers[matched[i].customerId].region == g;
          if i > 0 {
            assert matched[1..][i - 1] == matched[i];
          }
        }
      }
      var rest := RegionEntries(matched[1..], customers);
      if HasCustomer(s, customers) {
        var e := Entry(customers[s.customerId].region, s.totalRevenue);
        assert ([e] + rest)[1..] == rest;
        assert e.key in present;
        KeysCons(e, rest, EntryKey);
      }
    }
  }

  /** The revenue of sales with a customer never exceeds the revenue of all of them. */
  lemma {:induction false} ResolvedRevenueBound(sales: seq<Sale>, customers: map<Id, Customer>)
    requires AllValid(sales)
    ensures ResolvedRevenue(sales, customers) <= SumRevenue(sales)
    ensures (forall i :: 0 <= i < |sales| ==> HasCustomer(sales[i], customers))
            ==> ResolvedRevenue(sales, customers) == SumRevenue(sales)
  {
    if |sales| > 0 {
      ResolvedRevenueBound(sales[1..], customers);
      assert ValidSale(sales[0]);
    }
  }

  /** When every sale has its customer, the region pass loses no revenue. */
  lemma {:induction false} ResolvedRevenueComplete(sales: seq<Sale>, customers: map<Id, Customer>)
    requires forall i :: 0 <= i < |sales| ==> HasCustomer(sales[i], customers)
    ensures ResolvedRevenue(sales, customers) == SumRevenue(sales)
  {
    if |sales| > 0 {
      ResolvedRevenueComplete(sales[1..], customers);
    }
  }

  /** `$project`: each region group becomes `{ region, totalRevenue }`. */
  function ProjectRegions(bs: seq<Bucket<Region>>): (r: seq<RegionRevenue>)
    ensures |r| == |bs|
    ensures forall i :: 0 <= i < |r| ==> r[i].region == bs[i].key && r[i].totalRevenue == bs[i].total
  {
    if |bs| == 0 then [] else [RegionRevenue(bs[0].key, bs[0].total)] + ProjectRegions(bs[1..])
  }

  /** Sum of the revenues of a `salesByRegion` list. */
  function SumRegionRevenue(rs: seq<RegionRevenue>): real {
    if |rs| == 0 then 0.0 else rs[0].totalRevenue + SumRegionRevenue(rs[1..])
  }

  lemma {:induction false} ProjectRegionsSum(bs: seq<Bucket<Region>>)
    ensures SumRegionRevenue(ProjectRegions(bs)) == SumTotals(bs)
  {
    if |bs| > 0 {
      ProjectRegionsSum(bs[1..]);
      assert ProjectRegions(bs)[1..] == ProjectRegions(bs[1..]);
    }
  }

  /**
   * The region `$group` then `$sort: { totalRevenue: -1 }`: one group per
   * region present, holding that region's revenue, largest first.
   */
  function RankRegions(matched: seq<Sale>, customers: map<Id, Customer>): (r: seq<Bucket<Region>>)
    ensures DistinctKeys(r)
    ensures KeySet(r) == RegionsPresent(matched, customers)
    ensures NonIncreasing(r, TotalOf)
    ensures SumTotals(r) == ResolvedRevenue(matched, customers)
    ensures forall i :: 0 <= i < |r| ==> r[i].total == RegionRevenueOf(matched, customers, r[i].key)
  {
    RankRegionsKeys(matched, customers);
    RankRegionsSum(matched, customers);
    RankRegionsTotals(matched, customers);
    SortDesc(GroupSum(RegionEntries(matched, customers)), TotalOf)
  }

  lemma RankRegionsKeys(matched: seq<Sale>, customers: map<Id, Customer>)
    ensures var r := SortDesc(GroupSum(RegionEntries(matched, customers)), TotalOf);
      DistinctKeys(r) && KeySet(r) == RegionsPresent(matched, customers)
  {
    SortDistinct(GroupSum(RegionEntries(matched, customers)));
    RegionEntriesKeys(matched, customers);
  }

  lemma RankRegionsSum(matched: seq<Sale>, customers: map<Id, Customer>)
    ensures SumTotals(SortDesc(GroupSum(RegionEntries(matched, customers)), TotalOf)) == ResolvedRevenue(matched, customers)
  {
    SortSum(GroupSum(RegionEntries(matched, customers)));
    RegionEntriesSums(matched, customers);
  }

  lemma RankRegionsTotals(matched: seq<Sale>, customers: map<Id, Customer>)
    ensures var r := SortDesc(GroupSum(RegionEntries(matched, customers)), TotalOf);
      forall i :: 0 <= i < |r| ==> r[i].total == RegionRevenueOf(matched, customers, r[i].key)
  {
    var entries := RegionEntries(matched, customers);
    var groups := GroupSum(entries);
    var r := SortDesc(groups, TotalOf);
    RegionEntriesSums(matched, customers);
    forall i | 0 <= i < |r| ensures r[i].total == RegionRevenueOf(matched, customers, r[i].key) {
      assert r[i] in groups;
    }
  }

  /**
   * `salesByRegion`: each region of a matched sale's customer exactly once,
   * with the revenue of that region's sales, largest first; sales without a
   * customer are left out, so the revenues add up to the revenue of the
   * sales that have one.
   */
  function SalesByRegion(matched: seq<Sale>, customers: map<Id, Customer>): (r: seq<RegionRevenue>)
    ensures forall i, j :: 0 <= i < j < |r| ==> r[i].region != r[j].region
    ensures |r| <= 5
    ensures forall i, j :: 0 <= i < j < |r| ==> r[i].totalRevenue >= r[j].totalRevenue
    ensures forall i :: 0 <= i < |r| ==> r[i].totalRevenue == RegionRevenueOf(matched, customers, r[i].region)
    ensures forall g :: g in RegionsPresent(matched, customers) <==> exists i :: 0 <= i < |r| && r[i].region == g
    ensures SumRegionRevenue(r) == ResolvedRevenue(matched, customers)
  {
    var ranked := RankRegions(matched, customers);
    ProjectRegionsSum(ranked);
    RegionCountBound(ranked);
    ProjectedRegions(ranked);
    ProjectRegions(ranked)
  }

  /** A ranking of distinct regions has at most five entries. */
  lemma RegionCountBound(ranked: seq<Bucket<Region>>)
    requires DistinctKeys(ranked)
    ensures |ranked| <= 5
  {
    DistinctKeysCount(ranked);
    RegionSetBound(KeySet(ranked));
  }

  /** Projection keeps the regions, their distinctness and their order. */
  lemma ProjectedRegions(ranked: seq<Bucket<Region>>)
    ensures var r := ProjectRegions(ranked);
      && (DistinctKeys(ranked) ==> forall i, j :: 0 <= i < j < |r| ==> r[i].region != r[j].region)
      && (NonIncreasing(ranked, TotalOf) ==> forall i, j :: 0 <= i < j < |r| ==> r[i].totalRevenue >= r[j].totalRevenue)
      && forall g :: g in KeySet(ranked) <==> exists i :: 0 <= i < |r| && r[i].region == g
  {
    var r := ProjectRegions(ranked);
    forall g ensures g in KeySet(ranked) <==> exists i :: 0 <= i < |r| && r[i].region == g {
      if g in KeySet(ranked) {
        var i :| 0 <= i < |ranked| && ranked[i].key == g;
        assert r[i].region == g;
      }
    }
    if NonIncreasing(ranked, TotalOf) {
      forall i, j | 0 <= i < j < |r| ensures r[i].totalRevenue >= r[j].totalRevenue {
        assert TotalOf(ranked[i]) >= TotalOf(ranked[j]);
      }
    }
  }

  // ---------------------------------------------------------------- the report

  /**
   * The three passes over one matched set, and the report built from them
   * with `generatedAt` left to its default, the creation time `now`.
   */
  function GenerateReport(store: Store, id: Id, startDate: Date, endDate: Date, now: Date): (r: Report)
    ensures r.id == id && r.startDate == startDate && r.endDate == endDate && r.generatedAt == now
    ensures r.metrics.totalSales == CountInRange(store.sales, startDate, endDate) as real
    ensures r.metrics.totalRevenue == RevenueInRange(store.sales, startDate, endDate)
    ensures r.metrics.totalSales > 0.0 ==> r.metrics.avgOrderValue == r.metrics.totalRevenue / r.metrics.totalSales
    ensures r.metrics.totalSales == 0.0 ==> r.metrics.avgOrderValue == 0.0
    ensures r.metrics.topSellingProducts == TopSellingProducts(MatchDates(store.sales, startDate, endDate), store.products)
    ensures r.metrics.salesByRegion == SalesByRegion(MatchDates(store.sales, startDate, endDate), store.customers)
    ensures |r.metrics.topSellingProducts| <= TopProductsLimit
    ensures |r.metrics.salesByRegion| <= 5
    ensures AllValid(store.sales) ==> SumRegionRevenue(r.metrics.salesByRegion) <= r.metrics.totalRevenue
    ensures EveryCustomerFound(store.sales, startDate, endDate, store.customers) ==>
      SumRegionRevenue(r.metrics.salesByRegion) == r.metrics.totalRevenue
  {
    var matched := MatchDates(store.sales, startDate, endDate);
    var reportData := ReportData(KpiPipeline(matched));
    KpiValues(matched);
    MatchDatesTotals(store.sales, startDate, endDate);
    MatchedRegionBound(store.sales, startDate, endDate, store.customers);
    NewReport(id, startDate, endDate, None, now,
      MetricsInput(Some(reportData.totalRevenue), Some(reportData.avgOrderValue), Some(reportData.totalSales),
                   TopSellingProducts(matched, store.products), SalesByRegion(matched, store.customers)))
  }

  /** Every sale in range has its customer in the store. */
  predicate EveryCustomerFound(sales: seq<Sale>, startDate: Date, endDate: Date, customers: map<Id, Customer>) {
    forall i :: 0 <= i < |sales| && InRange(sales[i], startDate, endDate) ==> HasCustomer(sales[i], customers)
  }

  /**
   * Valid sales stay valid through the filter, so the region revenue stays
   * within the total; when every sale in range has its customer, it is the
   * total.
   */
  lemma MatchedRegionBound(sales: seq<Sale>, startDate: Date, endDate: Date, customers: map<Id, Customer>)
    ensures AllValid(sales) ==>
      ResolvedRevenue(MatchDates(sales, startDate, endDate), customers) <= SumRevenue(MatchDates(sales, startDate, endDate))
    ensures EveryCustomerFound(sales, startDate, endDate, customers) ==>
      ResolvedRevenue(MatchDates(sales, startDate, endDate), customers) == SumRevenue(MatchDates(sales, startDate, endDate))
  {
    var matched := MatchDates(sales, startDate, endDate);
    if AllValid(sales) {
      forall i | 0 <= i < |matched| ensures ValidSale(matched[i]) {
        assert matched[i] in multiset(matched);
        assert matched[i] in sales;
      }
      ResolvedRevenueBound(matched, customers);
    }
    if EveryCustomerFound(sales, startDate, endDate, customers) {
      forall i | 0 <= i < |matched| ensures HasCustomer(matched[i], customers) {
        assert matched[i] in multiset(matched);
        assert matched[i] in sales;
        var k :| 0 <= k < |sales| && sales[k] == matched[i];
      }
      ResolvedRevenueComplete(matched, customers);
    }
  }

  /** When no sale is in range the filter keeps nothing. */
  lemma {:induction false} NothingMatched(sales: seq<Sale>, startDate: Date, endDate: Date)
    requires forall i :: 0 <= i < |sales| ==> !InRange(sales[i], startDate, endDate)
    ensures MatchDates(sales, startDate, endDate) == []
  {
    if |sales| > 0 {
      NothingMatched(sales[1..], startDate, endDate);
    }
  }

  /**
   * A range with no sale yields a report of zeros and empty lists, never an
   * error and never a division by zero.
   */
  lemma EmptyRangeReport(store: Store, id: Id, startDate: Date, endDate: Date, now: Date)
    requires forall i :: 0 <= i < |store.sales| ==> !InRange(store.sales[i], startDate, endDate)
    ensures var m := GenerateReport(store, id, startDate, endDate, now).metrics;
      && m.totalRevenue == 0.0 && m.totalSales == 0.0 && m.avgOrderValue == 0.0
      && m.topSellingProducts == [] && m.salesByRegion == []
  {
    NothingMatched(store.sales, startDate, endDate);
    var ranked := RankRegions([], store.customers);
    assert KeySet(ranked) == {};
    DistinctKeysCount(ranked);
  }

  /**
   * The controller's fallback `{ totalRevenue: 0, totalSales: 0,
   * avgOrderValue: 0 }` and the schema's defaults agree: with no sale in
   * range the report is the one built with every metric left out.
   */
  lemma FallbackAgreesWithDefaults(store: Store, id: Id, startDate: Date, endDate: Date, now: Date)
    requires forall i :: 0 <= i < |store.sales| ==> !InRange(store.sales[i], startDate, endDate)
    ensures GenerateReport(store, id, startDate, endDate, now)
            == NewReport(id, startDate, endDate, None, now, MetricsInput(None, None, None, [], []))
  {
    EmptyRangeReport(store, id, startDate, endDate, now);
  }

  /**
   * A sale in range whose customer does not exist counts toward the revenue
   * and the number of sales but leaves `salesByRegion` as it was.
   */
  lemma OrphanSaleSkipsRegions(store: Store, x: Sale, id: Id, startDate: Date, endDate: Date, now: Date)
    requires InRange(x, startDate, endDate) && x.customerId !in store.customers
    ensures var before := GenerateReport(store, id, startDate, endDate, now).metrics;
      var after := GenerateReport(store.(sales := [x] + store.sales), id, startDate, endDate, now).metrics;
      && after.totalSales == before.totalSales + 1.0
      && after.totalRevenue == before.totalRevenue + x.totalRevenue
      && after.salesByRegion == before.salesByRegion
  {
    var sales := [x] + store.sales;
    assert sales[1..] == store.sales;
    var matched := MatchDates(store.sales, startDate, endDate);
    assert MatchDates(sales, startDate, endDate) == [x] + matched;
    assert ([x] + matched)[1..] == matched;
    assert RegionEntries([x] + matched, store.customers) == RegionEntries(matched, store.customers);
  }

  // A worked example: product A sells 3 and product B sells 10 in range,
  // another 2 of A are sold after the range; the buyer is in the North.

  const SaleA: Sale := Sale(1, 1, 7, 3.0, 300.0, 10, 0, 0)
  const SaleB: Sale := Sale(2, 2, 7, 10.0, 500.0, 20, 0, 0)
  const SaleLate: Sale := Sale(3, 1, 7, 2.0, 200.0, 99, 0, 0)
  const ExampleProducts: map<Id, Product> :=
    map[1 := Product(1, "A", Electronics, 100.0), 2 := Product(2, "B", Books, 50.0)]
  const ExampleCustomers: map<Id, Customer> := map[7 := Customer(7, "Acme", North, Business)]

  lemma ExampleMatch()
    ensures MatchDates([SaleA, SaleB, SaleLate], 0, 50) == [SaleA, SaleB]
  {
    assert [SaleA, SaleB, SaleLate][1..] == [SaleB, SaleLate];
    assert [SaleB, SaleLate][1..] == [SaleLate];
    assert [SaleLate][1..] == [];
    assert MatchDates([SaleLate], 0, 50) == [];
    assert MatchDates([SaleB, SaleLate], 0, 50) == [SaleB];
  }

  lemma ExampleRank()
    ensures RankProducts([SaleA, SaleB]) == [Bucket(2, 10.0), Bucket(1, 3.0)]
  {
    var matched := [SaleA, SaleB];
    assert matched[1..] == [SaleB];
    var entries := QuantityEntries(matched);
    assert entries == [Entry(1, 3.0), Entry(2, 10.0)];
    assert entries[1..] == [Entry(2, 10.0)];
    assert GroupSum(entries[1..]) == [Bucket(2, 10.0)];
    var groups := GroupSum(entries);
    assert groups == [Bucket(2, 10.0), Bucket(1, 3.0)];
    assert groups[1..] == [Bucket(1, 3.0)];
    assert SortDesc(groups[1..], TotalOf) == [Bucket(1, 3.0)];
  }

  lemma LookupPair(g1: Bucket<Id>, g2: Bucket<Id>, products: map<Id, Product>)
    requires g1.key in products && g2.key in products
    ensures LookupProducts([g1, g2], products)
            == [JoinedProduct(g1.key, products[g1.key], g1.total), JoinedProduct(g2.key, products[g2.key], g2.total)]
  {
    assert [g1, g2][1..] == [g2];
    assert [g2][1..] == [];
  }

  lemma ProjectPair(j1: JoinedProduct, j2: JoinedProduct)
    ensures ProjectProducts([j1, j2]) == [TopProduct(j1.product.name, j1.totalQuantity), TopProduct(j2.product.name, j2.totalQuantity)]
  {
    assert [j1, j2][1..] == [j2];
    assert [j2][1..] == [];
  }

  /** A ranking of at most five groups is kept whole by the limit. */
  lemma ShortRankingDocs(matched: seq<Sale>, products: map<Id, Product>)
    requires |RankProducts(matched)| <= TopProductsLimit
    ensures TopProductDocs(matched, products) == LookupProducts(RankProducts(matched), products)
  {
    assert Take(RankProducts(matched), TopProductsLimit) == RankProducts(matched);
  }

  lemma ExampleDocs()
    ensures TopProductDocs([SaleA, SaleB], ExampleProducts) == LookupProducts([Bucket(2, 10.0), Bucket(1, 3.0)], ExampleProducts)
  {
    ExampleRank();
    ShortRankingDocs([SaleA, SaleB], ExampleProducts);
  }

  lemma ExampleJoined()
    ensures LookupProducts([Bucket(2, 10.0), Bucket(1, 3.0)], ExampleProducts)
            == [JoinedProduct(2, Product(2, "B", Books, 50.0), 10.0), JoinedProduct(1, Product(1, "A", Electronics, 100.0), 3.0)]
  {
    LookupPair(Bucket(2, 10.0), Bucket(1, 3.0), ExampleProducts);
  }

  lemma ExampleTop()
    ensures TopSellingProducts([SaleA, SaleB], ExampleProducts) == [TopProduct("B", 10.0), TopProduct("A", 3.0)]
  {
    ExampleDocs();
    ExampleJoined();
    ProjectPair(JoinedProduct(2, Product(2, "B", Books, 50.0), 10.0), JoinedProduct(1, Product(1, "A", Electronics, 100.0), 3.0));
  }

  lemma ExampleRegions()
    ensures SalesByRegion([SaleA, SaleB], ExampleCustomers) == [RegionRevenue(North, 800.0)]
  {
    var matched := [SaleA, SaleB];
    assert matched[1..] == [SaleB];
    assert RegionEntries([SaleB], ExampleCustomers) == [Entry(North, 500.0)];
    var entries := RegionEntries(matched, ExampleCustomers);
    assert entries == [Entry(North, 300.0), Entry(North, 500.0)];
    assert entries[1..] == [Entry(North, 500.0)];
    assert GroupSum(entries[1..]) == [Bucket(North, 500.0)];
    var groups := GroupSum(entries);
    assert groups == [Bucket(North, 800.0)];
    assert SortDesc(groups, TotalOf) == [Bucket(North, 800.0)];
    assert RankRegions(matched, ExampleCustomers) == [Bucket(North, 800.0)];
  }

  lemma ExampleKpi()
    ensures ReportData(KpiPipeline([SaleA, SaleB])) == KpiRow(800.0, 2.0, 400.0)
  {
    assert [SaleA, SaleB][1..] == [SaleB];
    assert [SaleB][1..] == [];
    assert SumRevenue([SaleB]) == 500.0;
    assert SumRevenue([SaleA, SaleB]) == 800.0;
    KpiValues([SaleA, SaleB]);
  }

  /**
   * The worked example end to end: revenue 800 over 2 sales, average 400,
   * B before A, and all revenue in the North.
   */
  lemma WorkedExample()
    ensures var m := GenerateReport(Store([SaleA, SaleB, SaleLate], ExampleProducts, ExampleCustomers), 42, 0, 50, 1000).metrics;
      && m.totalRevenue == 800.0 && m.totalSales == 2.0 && m.avgOrderValue == 400.0
      && m.topSellingProducts == [TopProduct("B", 10.0), TopProduct("A", 3.0)]
      && m.salesByRegion == [RegionRevenue(North, 800.0)]
  {
    ExampleMatch();
    ExampleTop();
    ExampleRegions();
    ExampleKpi();
  }

  // ---------------------------------------------------------------- history

  /** The most reports the history query returns. */
  const HistoryLimit: nat := 20

  function GeneratedAtKey(r: Report): real {
    r.generatedAt as real
  }

  /**
   * `find().sort({ generatedAt: -1 }).limit(20)`: at most twenty stored
   * reports, newest first, and no stored report left out is newer than one
   * returned.
   */
  function ReportHistory(saved: seq<Report>): (r: seq<Report>)
    ensures |r| == Min(HistoryLimit, |saved|)
    ensures NonIncreasing(r, GeneratedAtKey)
    ensures multiset(r) <= multiset(saved)
    ensures forall x, y :: x in r && y in multiset(saved) - multiset(r) ==> y.generatedAt <= x.generatedAt
  {
    var sorted := SortDesc(saved, GeneratedAtKey);
    TakeOfSortedOmitsSmaller(sorted, GeneratedAtKey, HistoryLimit);
    Take(sorted, HistoryLimit)
  }

  /** A report newer than every saved one heads the history. */
  lemma NewestReportFirst(saved: seq<Report>, report: Report)
    requires forall x :: x in saved ==> x.generatedAt < report.generatedAt
    ensures |ReportHistory(saved + [report])| > 0
    ensures ReportHistory(saved + [report])[0] == report
  {
    var all := saved + [report];
    var sorted := SortDesc(all, GeneratedAtKey);
    assert report in all;
    assert report in sorted;
    var k :| 0 <= k < |sorted| && sorted[k] == report;
    assert GeneratedAtKey(sorted[0]) >= GeneratedAtKey(report);
    assert sorted[0] in all;
  }
}
