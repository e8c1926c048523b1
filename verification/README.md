# Sales dashboard: report generation, modelled in Dafny

This project models the backend core of the sales-dashboard application. It
covers the analytics report that `POST /api/reports` generates over a date
range, the `GET /api/reports/history` query, the request validator in front
of report generation, and the four Mongoose collections the reports read
and write (Sale, Product, Customer, AnalyticsReport).

A report is built from three aggregation pipelines over the sales whose
`reportDate` lies in the inclusive range:

- the KPI pass: revenue sum, sale count and average order value;
- the top-products pass: group by product, sort by quantity, keep five, then
  join to products and drop groups whose product is missing;
- the region pass: join each sale to its customer and drop sales without
  one, then group by region and sort by revenue.

When no sale matches, the report falls back to zero KPIs. The history query
returns the twenty newest saved reports.

Modules, one per concern of the program:

| module | file | models |
|---|---|---|
| `Wrappers` | Wrappers.dfy | `Option`, `Result`, dates and ids |
| `Schema` | Schema.dfy | the `trim`, `required` and `min` behaviour of Mongoose paths |
| `ProductModel`, `CustomerModel`, `SaleModel`, `ReportModel` | *Model.dfy | the four collections, their enums and constraints |
| `Stages` | Stages.dfy | the aggregation stages the pipelines use: `$group` with `$sum`, `$sort` descending and `$limit` |
| `Analytics` | Analytics.dfy | `generateAnalyticsReport` and `getReportHistory` |
| `Validator` | Validator.dfy | `validateReportRequest` |
| `Routes` | Routes.dfy | the two endpoints wired to the validator and the controller |

Every MongoDB `Number` is a Dafny `real`. Every `Date` is an `int` of
milliseconds since the epoch. Every ObjectId is a `nat`. The database is an
in-memory `Store` of a sale sequence plus product and customer maps keyed
by id. Saved reports are a sequence.

Notes on the source:

- A sale's `quantity` is a `Number` with `min: 1`, so a fractional quantity
  of at least 1 is accepted.
- A product group whose product is missing is dropped silently by
  `$unwind`, with no warning logged.
- The range check `startDate <= endDate` happens only in the validator. The
  controller does not check it again: an inverted range reaching it simply
  matches no sale.
- The history limit is the constant 20.
- `toDate()` turns a value it cannot parse into `null`. Such a report fails
  the `required` check on `startDate` or `endDate` when it is saved, and the
  handler answers 500.

## Model

| member | source | states |
|---|---|---|
| Schema.Trim | backend/models/Customer.js:3 | the stored name has no white space at either end, and it is the input with only a white-space prefix and a white-space suffix removed |
| Schema.TrimIdempotent | backend/models/Product.js:3 | trimming an already trimmed name leaves it unchanged |
| ProductModel.ParseCategory | backend/models/Product.js:4 | a category string is accepted exactly when it is the stored name of one of the five categories, "Home Goods" included, and it maps to that category |
| ProductModel.ProductErrors | backend/models/Product.js:3-5 | no errors exactly when the name is non-empty, the category is in the enum and the price is at least 0; an empty category fails `required`, and only a non-empty unknown one fails the enum; each error is present exactly when its path fails, and nothing else is reported |
| ProductModel.NewProduct | backend/models/Product.js:2-6 | a product is created exactly when its trimmed name is non-empty, its category is in the enum and its price is at least 0; the stored product is valid, keeps the price and stores the trimmed name; otherwise each failing path is reported, an empty category as `required` and an unknown one as not in the enum, and nothing else |
| CustomerModel.ParseRegion | backend/models/Customer.js:4 | a region string is accepted exactly when it names one of the five regions |
| CustomerModel.ParseCustomerType | backend/models/Customer.js:5 | a type string is accepted exactly when it names one of the three customer types |
| CustomerModel.RegionSetBound | backend/models/Customer.js:4 | there are at most five distinct regions |
| CustomerModel.CustomerErrors | backend/models/Customer.js:3-5 | no errors exactly when the name is non-empty and both enums accept their values; an empty region or type fails `required`, and only a non-empty unknown one fails its enum; each error is present exactly when its path fails, and nothing else is reported |
| CustomerModel.NewCustomer | backend/models/Customer.js:2-6 | a customer is created exactly when its trimmed name is non-empty and region and type are in their enums; the stored names round-trip to the given strings; otherwise each failing path is reported, an empty enum value as `required` and an unknown one as not in the enum, and nothing else |
| SaleModel.NewSale | backend/models/Sale.js:2-8 | a sale is created exactly when quantity is at least 1 and revenue at least 0, keeping the id and every given field and stamping both timestamps with the creation time; otherwise each failing path is reported, and nothing but those two checks |
| Stages.AddTo | backend/controllers/analyticsController.js:26 | adding a row to the groups adds its amount to its key's group, or opens a new group; keys stay distinct and the grand total grows by the amount |
| Stages.GroupSum | backend/controllers/analyticsController.js:26 | one group per distinct key of the rows, each holding the sum of that key's amounts; the group totals add up to the sum of all rows |
| Stages.InsertDesc | backend/controllers/analyticsController.js:27 | inserting into a sequence ordered largest first keeps it ordered and adds exactly that element |
| Stages.SortDesc | backend/controllers/analyticsController.js:27 | the sorted sequence is a permutation of the input ordered by key, largest first |
| Stages.SortSum | backend/controllers/analyticsController.js:38 | sorting groups does not change their grand total |
| Stages.SortDistinct | backend/controllers/analyticsController.js:38 | sorting groups keeps their keys distinct and the same |
| Stages.TakeOfSortedKeepsLargest | backend/controllers/analyticsController.js:27 | after a descending sort, nothing beyond the limit has a larger key than anything kept |
| Stages.TakeOfSortedOmitsSmaller | backend/controllers/analyticsController.js:27 | what the limit keeps is a sub-multiset of the input, and no omitted element has a larger key than a kept one |
| Stages.DistinctKeysCount | backend/controllers/analyticsController.js:26 | groups with distinct keys are as many as their keys |
| Analytics.MatchDates | backend/controllers/analyticsController.js:12 | the filter keeps each sale whose `reportDate` lies within both bounds inclusive, as often as it occurs, and nothing else |
| Analytics.MatchDatesTotals | backend/controllers/analyticsController.js:12-18 | the matched sales number the sales in range, and their revenue is the revenue in range |
| Analytics.SumRevenueNonNegative | backend/models/Sale.js:6 | valid sales never sum to negative revenue |
| Analytics.Tally | backend/controllers/analyticsController.js:18 | the single pass of the KPI `$group` yields the revenue sum and the sale count |
| Analytics.KpiPipeline | backend/controllers/analyticsController.js:16-21 | no matched sale gives no KPI row; otherwise exactly one row holding the sale count, the revenue sum and their quotient |
| Analytics.KpiValues | backend/controllers/analyticsController.js:44-50 | the report receives the matched count and revenue, and an average that is their quotient, or exactly 0 when nothing matched |
| Analytics.QuantityEntriesSum | backend/controllers/analyticsController.js:26 | the `$sum: '$quantity'` of a product's rows is that product's quantity sold |
| Analytics.RankProducts | backend/controllers/analyticsController.js:26-27 | one group per product sold, holding its quantity sold, ordered largest first |
| Analytics.LookupProducts | backend/controllers/analyticsController.js:28-29 | every joined entry is an input group paired with its existing product, in no greater number than the groups; nothing is dropped exactly when every group's product exists |
| Analytics.LookupKeeps | backend/controllers/analyticsController.js:28-29 | a group whose product exists survives the join |
| Analytics.LookupDistinct | backend/controllers/analyticsController.js:28-29 | groups with distinct products join to entries with distinct products |
| Analytics.LookupOrder | backend/controllers/analyticsController.js:28-29 | the join keeps the quantity order of the groups |
| Analytics.TopProductDocs | backend/controllers/analyticsController.js:24-29 | at most five joined products, distinct and ordered by quantity, each an existing product sold in range with its quantity sold |
| Analytics.TopSellingProducts | backend/controllers/analyticsController.js:24-31 | at most five `{ name, totalQuantity }` entries, largest first, each naming a stored product sold in range with that product's quantity sold |
| Analytics.NoBackfill | backend/controllers/analyticsController.js:27-29 | the limit comes before the join: every entry is one of the five best-selling groups, and every one of those groups whose product exists is in the list, joined to that product; so the list is as long as it can be exactly when all five have their product, and a missing product is not replaced by the sixth best |
| Analytics.OmittedGroupRanksBelow | backend/controllers/analyticsController.js:27-29 | in any ranking, a group with a product that the joined top groups omit is ranked no higher than any of them |
| Analytics.TopProductsAreTop | backend/controllers/analyticsController.js:26-29 | a stored product sold in range but absent from the list sold no more than any product in it |
| Analytics.RegionEntriesSums | backend/controllers/analyticsController.js:35-37 | the rows reaching the region `$group` carry, per region, exactly the revenue of sales whose customer is in that region |
| Analytics.RegionEntriesKeys | backend/controllers/analyticsController.js:35-37 | the regions reaching the `$group` are exactly the regions of the matched sales' existing customers |
| Analytics.ResolvedRevenueBound | backend/controllers/analyticsController.js:35-37 | for valid sales, the revenue of sales with a customer is at most the total revenue, and equal to it when every sale has its customer |
| Analytics.ProjectRegionsSum | backend/controllers/analyticsController.js:39 | the projection keeps the revenue total |
| Analytics.RankRegions | backend/controllers/analyticsController.js:37-38 | one group per region present, holding that region's revenue, largest first, adding up to the revenue of sales with a customer |
| Analytics.RegionCountBound | backend/models/Customer.js:4 | a ranking of distinct regions has at most five entries |
| Analytics.SalesByRegion | backend/controllers/analyticsController.js:33-40 | each region of a matched sale's existing customer appears exactly once with that region's revenue, largest first; sales without a customer are left out, so the entries add up to the revenue of the sales that have one |
| Analytics.GenerateReport | backend/controllers/analyticsController.js:9-54 | the report keeps the range, is stamped with the creation time, counts and sums the sales in range, has an average that is their quotient or 0, and holds the top-products and region lists of the sales in range (at most five each); for valid sales the regional revenue is within the total, and equal to it when every sale in range has its customer |
| Analytics.MatchedRegionBound | backend/controllers/analyticsController.js:33-37 | for valid sales the filtered sales' regional revenue is within their total revenue; when every sale in range has its customer, it equals that total |
| Analytics.ResolvedRevenueComplete | backend/controllers/analyticsController.js:35-36 | when every sale has its customer, the `$lookup` and `$unwind` drop no revenue, whatever the sales' values |
| Analytics.FallbackAgreesWithDefaults | backend/controllers/analyticsController.js:44-54 | with no sale in range, the report built from the controller's zero fallback is the report the schema builds with every metric left to its default (AnalyticsReport.js:7-9) |
| Analytics.NothingMatched | backend/controllers/analyticsController.js:12 | with no sale in range the filter keeps nothing |
| Analytics.EmptyRangeReport | backend/controllers/analyticsController.js:44 | a range with no sale gives zero KPIs and empty lists, with no division by zero |
| Analytics.OrphanSaleSkipsRegions | backend/controllers/analyticsController.js:35-36 | one more sale in range whose customer is missing adds to the count and the revenue but leaves the region breakdown unchanged |
| Analytics.WorkedExample | backend/controllers/analyticsController.js:9-54 | on a concrete store: revenue 800 over 2 sales, average 400; product B (10) before product A (3); all revenue in the North; a sale after the range is ignored |
| Analytics.ReportHistory | backend/controllers/analyticsController.js:73 | at most twenty saved reports, newest first, taken from the saved ones, and none left out is newer than one returned |
| Analytics.NewestReportFirst | backend/controllers/analyticsController.js:71-74 | a report newer than every saved one heads the history |
| Validator.ValidationErrors | backend/middlewares/validator.js:4-11 | each ISO 8601 error is present exactly when that field fails the check; the order error is present exactly when the end date is before the start date; nothing else is reported |
| Validator.ValidateReportRequest | backend/middlewares/validator.js:12-18 | the request is answered 400 with the full error list exactly when there are errors; otherwise the chain goes on with two valid dates in order |
| Validator.EndBeforeStartRejected | backend/middlewares/validator.js:6-11 | an end date before the start date is always refused with the order message |
| Validator.SameDayAccepted | backend/middlewares/validator.js:7 | the order check is strict: equal valid dates pass |
| Routes.PostReport | backend/controllers/analyticsController.js:9-62 | a refused request is answered 400 with the validator's errors and saves nothing; an accepted request whose dates do not convert fails the `required` check on save and is answered 500, saving nothing; otherwise the handler saves and answers 201 with exactly the report generated over the request's ordered range at the creation time |
| Routes.GetHistory | backend/controllers/analyticsController.js:71-74 | the history answer is a 200 holding exactly the history of the saved reports: at most twenty, newest first |
| Routes.RefusedRequestIgnoresStore | backend/middlewares/validator.js:12-18 | a refused request never reaches the pipelines: its answer does not depend on the store |
| Routes.PostThenHistory | backend/routes/analyticsRoutes.js:6-8 | a report generated after every saved one is the first entry of the history read right after it |

## Left out

- Persistence: saving with `save()` and reading with `find()` run against an in-memory store and a sequence of saved reports. MongoDB itself is not modelled.
- Concurrency: the three pipelines run one after another over the same matched sales, where the source runs them with `Promise.all`.
- Socket.IO: the `new_report_available` broadcast after saving (analyticsController.js:57) is left out. It is a side effect with no result the caller sees.
- The 500 answers to database failures: a failing aggregation, `save()` or `find()` is not modelled, so the history `catch` at analyticsController.js:75-78 never fires, and the generation `catch` at :60-63 fires only for a date that `toDate()` could not convert.
- ProductModel.NewProduct: `name`, `category` and `price` always arrive as a string, a string and a number. A missing or uncastable `price` cannot be written, so its `required` error and a Mongoose cast error are not modelled.
- SaleModel.NewSale: `productId`, `customerId`, `quantity`, `totalRevenue` and `reportDate` always arrive, each with its own type. Their `required` errors and cast errors are not modelled.
- Validator.ValidationErrors: each error keeps only its path and message; the `type`, `value` and `location` fields of `errors.array()` are not modelled.
- Report ids: the ObjectId of a new report is a parameter, not generated.
- The creation time: `Date.now` is a parameter, and so is the `createdAt`/`updatedAt` timestamp of a sale.
- AnalyticsReport's own `timestamps` (`createdAt`/`updatedAt`) are not modelled: nothing in the controller reads them.
- Validator.ValidationErrors: the ISO 8601 grammar of `isISO8601()` and the parsing done by `toDate()` are parameters supplied by the caller, not implemented.
- Stages.SortDesc: the order among equal keys is this model's own. The source leaves ties to the database, so every contract states only the ordering and the permutation.
- Analytics.KpiPipeline: sums and quotients are exact reals, not IEEE doubles, so rounding is not modelled.
- Analytics.GenerateReport: region values are the enum, not free strings. A stored customer always holds one of the five enum values, so nothing is lost.
- The database seeder, the server bootstrap and the React frontend are outside this model.
