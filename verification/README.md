# Gocase business-case dashboard: the data core in Dafny

`app.py` is a Streamlit dashboard. It reads three spreadsheets: orders, order
items and supply. It cleans them, aggregates supply per material, and joins
everything into one unified table (orders ⟕ items ⟕ supply). From that table it
derives the sales, stock, risk and logistics metrics it charts. This project
restates that pipeline as pure functions over sequences of immutable records
and proves what each stage promises:

- `tables.dfy`: the records (raw and cleaned orders, items, supply rows, the
  supply aggregate, the unified row), the `Option` / `Result` wrappers, and
  the group labels of a column with blank labels dropped, as `groupby` drops them.
  A spreadsheet blank is `None`, a material id included. Dates are day
  numbers; the order date also keeps its second of the day, because the
  analysis span is taken on the raw timestamp. Money, prices, stock and lead
  times are exact reals.
- `seqs.dfy`, `sorting.dfy`: the dataframe primitives the script leans on:
  boolean masks, counts, group sums, group labels (each once),
  `drop_duplicates`, and a sort by a total preorder.
- `cleaning.dfy`: order-id coercion and row dropping, integer conversion by
  truncation, delivery days, item key and price coercion, one unit per item.
- `supply.dfy`: the per-material supply rollup.
- `joins.dfy`: the two left joins and the missing-name default.
- `revenue.dfy`: line revenue, per-order subtotal and the discount band.
- `stock.dfy`: the active-product filter and the critical-stock list.
- `risk.dfy`: risk tiers per row and per order, and the cancellation rate per tier.
- `basket.dfy`: the products bought together with a reference product.
- `cancellation.dfy`: the overall and per-carrier cancellation rates.
- `logistics.dfy`: the logistics funnel filter and the carrier SLA figures.
- `display.dfy`: truncation of product names on the charts.

Points where the model follows the code rather than a looser reading of it:

- `groupby(...).agg('first')` returns the first non-blank value of a group.
  So the aggregate's `discontinued` flag comes from the material's first supply
  row whose flag is filled, which is not always its first row.
- The per-carrier cancellation rate and the "more than 50" volume filter count
  unified rows, one per order item, not distinct orders.
- The analysis span of the critical list is the whole number of days between
  the earliest and the latest order timestamp (line 77 keeps the time of day),
  so it can be one less than the difference of the calendar days.
- `groupby` drops the rows whose key is blank. An item or supply row with a
  blank material id joins no aggregate row, is sold as no material and is
  rated `Baixo`.
- Two chained `fillna(..., inplace=True)` calls (lines 93 and 259) are modelled
  with the effect their authors intended: blank names become `Não informado`,
  and blank stock becomes 0.
- pandas' `round` rounds halves to even. Coverage keeps the `+ 0.0001` in its
  denominator and is computed in exact arithmetic.
- A negative coverage, which needs negative stock, is neither `== 0` nor
  `> 0`. Such a material stays `Baixo`.

## Model

| member | source | states |
|---|---|---|
| Cleaning.ParseInteger | app.py:69 | text is read as a number exactly when it is an optional sign followed by decimal digits; the sign of the value follows the sign of the text |
| Cleaning.ParseShowRoundTrip | app.py:69 | reading back the decimal text of any integer gives that integer |
| Cleaning.ToNumeric | app.py:69 | `to_numeric(errors='coerce')` passes numbers, reads integer text as the integer it denotes, and turns other text and blanks into NaN |
| Cleaning.TruncateToInt | app.py:71 | `astype(int)` truncates toward zero: within one of the value, on the side of zero |
| Cleaning.CleanOrders | app.py:69-71 | the cleaned table has one row per raw row whose identifier coerces |
| Cleaning.CleanOrdersSound | app.py:69-71 | every surviving order comes from a raw row whose identifier coerces to its integer id, with that row's columns |
| Cleaning.CleanOrdersComplete | app.py:69-71 | every raw row whose identifier coerces survives with that identifier |
| Cleaning.CleanOrdersOfCleaned | app.py:69-71 | cleaning a table of cleaned orders gives it back unchanged |
| Cleaning.CleanOrdersIdempotent | app.py:69-71 | cleaning twice gives the same rows as cleaning once |
| Cleaning.DaysBetween | app.py:74-76 | the day difference exists iff both days do, adds up (`from + r == to`) and is negative exactly when the second day is earlier (not clamped) |
| Cleaning.CoercePrice | app.py:80 | an unparseable or blank price becomes 0; otherwise it is the coerced number |
| Cleaning.CleanItems | app.py:79-81 | no item row is dropped; each gets the coerced order key, the coerced price and quantity 1, and keeps its other columns |
| Supply.FirstDiscontinued | app.py:84-86 | the flag is the first non-blank flag among the material's rows (nothing is filled before it), or blank when all are blank |
| Supply.MeanLeadtime | app.py:84-86 | the mean is blank iff the material has no lead time; otherwise it times the number of lead times is their sum |
| Supply.Aggregate | app.py:84-86 | one aggregate row per material (no material twice), each equal to that material's rollup |
| Supply.AggregateMaterials | app.py:84-86 | the aggregate covers exactly the materials named in the supply table; a blank id names none |
| Supply.StockIsGroupSum | app.py:84-86 | a material's aggregate stock is the sum of its raw stock values, blanks as 0 |
| Supply.AggregateConservesStock | app.py:84-86 | the aggregate's stock adds up to the stock of the raw rows that name a material |
| Supply.AggregateValuesStock | app.py:84-86 | summed over the present labels of any label list, the aggregate stock equals the group sums over all its labels, the blank label's group counting nothing |
| Joins.SupplyMatchesUnique | app.py:87-89 | with unique material keys, a material matches at most one aggregate row, the one with its key, or none |
| Joins.JoinItemUnique | app.py:87-89 | with unique material keys an item yields exactly one joined row, carrying the aggregate when its material has one and blank supply columns otherwise |
| Joins.JoinItem | app.py:87-89 | a left join keeps every item: it yields at least one row, and all of them carry that item |
| Joins.BlankMaterialUnmatched | app.py:87-89 | an item with a blank material id matches no aggregate row and keeps blank supply columns |
| Joins.JoinItemsSupply | app.py:87-89 | the join has at least as many rows as there are items, each carrying an item of the table |
| Joins.JoinItemsSupplyRows | app.py:87-89 | with unique material keys, joined row `i` is the single row item `i` yields |
| Joins.JoinItemsSupplyOneToOne | app.py:87-89 | the items-to-supply join keeps every item row exactly once, in order: matched items carry their material's aggregate, unmatched ones blank supply columns |
| Joins.OrderMatches | app.py:90-92 | an order's item rows are exactly the rows whose coerced key equals its id |
| Joins.NameOrDefault | app.py:93 | a missing material name becomes `Não informado`; a present one is kept |
| Joins.JoinOrder | app.py:90-93 | an order with no item rows yields one row with blank item columns; otherwise one row per item row of the order |
| Joins.JoinOrders | app.py:90-92 | the orders join keeps every order: at least as many rows as orders, and every order has a row |
| Joins.JoinOrdersSound | app.py:90-93 | every unified row is an order of the table, joined with one of its own item rows under the defaulted name, or alone under `Não informado` when it has no item row |
| Joins.JoinOrdersComplete | app.py:90-92 | every pairing of an order with one of its item rows appears |
| Joins.PairsCountItems | app.py:90-92 | when every item row belongs to exactly one order, the number of (order, own item) pairs is the number of item rows |
| Joins.JoinOrdersLength | app.py:90-92 | when every order has an item row, the unified table has one row per (order, own item) pair |
| Joins.JoinOrdersRowCount | app.py:90-92 | when every order has item rows and every item row has exactly one order, the unified table has one row per item row |
| Joins.PipelineKeepsItems | app.py:79-89 | after cleaning and aggregation, the items-to-supply join has exactly one row per raw item row, carrying that item |
| Revenue.LineRevenue | app.py:113-114 | line revenue exists exactly for rows that carry an item, and is that item's quantity times its price |
| Revenue.Subtotal | app.py:217-220 | an order's subtotal is the sum of the line revenue over the rows of that order, rows without an item adding nothing |
| Revenue.SubtotalIsPriceSum | app.py:218-221 | with one unit per item row, an order's subtotal is the sum of its item prices, and 0 when it has no item |
| Revenue.SubtotalsConserveRevenue | app.py:218-221 | the per-order subtotals add up to the revenue of the whole table |
| Revenue.InDiscountBand | app.py:224-227 | the discount filter holds iff the subtotal is positive and the discount is at least 0% and below 95% of it |
| Revenue.DiscountBandOnInvoice | app.py:224-228 | the discount band holds iff the invoice is above 5% of the subtotal and at most the subtotal; it implies a positive subtotal |
| Revenue.DiscountBandExamples | app.py:224-228 | subtotal 100 with invoice 90 is kept; subtotal 100 with invoice 1 is dropped |
| Revenue.PointsFor | app.py:222-228 | a point is kept for a listed (order, invoice) pair exactly when the invoice is present and the inferred discount lies in the band; it carries the order's subtotal and discount |
| Revenue.DiscountPoints | app.py:217-228 | every point carries its order's subtotal, the discount subtotal minus invoice, and a discount from 0 up to below 95% of the subtotal |
| Revenue.DiscountPointsSpec | app.py:218-228 | every point is an order with that invoice, its subtotal and discount `subtotal - invoice`, in the band; every order with an invoice in the band has a point |
| Stock.IsActive | app.py:245 | a row is active iff it has no item, or its discontinued flag is blank or `False` |
| Stock.ActiveRows | app.py:245 | a row is active iff it has no item or its item's discontinued flag is not `True`; a blank flag counts as active |
| Stock.AnalysisSpan | app.py:249-250 | the span exists iff some active row has an order timestamp; it is at least 1 day; every difference of two timestamps is less than span + 1 days, and unless the span is 1 some difference is at least span days (whole days, floored) |
| Stock.AnalysisSpanExample | app.py:249-250 | orders at 10:00 on one day and 09:00 twenty-seven days later give a span of 26, one less than their calendar-day difference |
| Stock.Materials | app.py:253 | the grouped materials are exactly those of rows that carry an item, each once |
| Stock.SalesCountsRows | app.py:252-253 | with one unit per item row (line 81), a material's sales are its number of rows |
| Stock.AvgDaily | app.py:254 | a material's average daily sales times the span are its units sold |
| Stock.AvgDailyPositive | app.py:254-264 | over a span of at least one day, average daily sales are positive iff sales are |
| Stock.FirstOf | app.py:257 | `drop_duplicates(subset='material_id')` keeps the first row of the material: it has the material and no earlier row has it |
| Stock.StockFor | app.py:257-259 | a material's stock is its first row's stock, and 0 when that is blank |
| Stock.RoundHalfEven | app.py:260-262 | the rounded value lies within a half of the input, and an exact tie goes to the even neighbour |
| Stock.RoundHalfEvenUnique | app.py:260-262 | an integer strictly nearer than a half is the rounded value |
| Stock.RoundHalfEvenExamples | app.py:260-262 | 3.0 stays 3, 0.5 and -0.5 go to 0, 2.5 goes to 2, 3.5 goes to 4, 2.4 goes to 2 |
| Stock.CoverageDays | app.py:260-262 | coverage is within a half day of stock over (average + 0.0001); zero stock gives 0 and non-negative stock gives a non-negative coverage |
| Stock.Selling | app.py:264 | the kept materials are exactly those with positive average daily sales, each once |
| Stock.Ranked | app.py:264-266 | the ranked rows are a permutation of the selling materials' rows, ordered by coverage ascending, then daily sales descending |
| Stock.RankedEntry | app.py:253-264 | each ranked row is the row of a material with positive average daily sales |
| Stock.CriticalList | app.py:245-266 | the list is missing exactly when no row is active; it fails (the integer cast of a NaN coverage) exactly when no active row is dated but some material is to be rated |
| Stock.ListedEntry | app.py:249-266 | each listed row is its material's row, computed over the analysis span, for a material that sells |
| Stock.CriticalListOrdered | app.py:264-266 | the list is ordered by coverage ascending and, on equal coverage, by daily sales descending |
| Stock.CriticalListSelling | app.py:264 | every listed material has positive average daily sales |
| Stock.CriticalListEntries | app.py:250-262 | a listed row holds sales over span, its first active row's stock and name, and the rounded coverage; zero stock means coverage 0 |
| Stock.ListedSells | app.py:253-264 | a listed material is sold on the active rows |
| Stock.SellsListed | app.py:253-264 | an active material with positive sales is listed |
| Stock.CriticalListMembers | app.py:253-264 | the listed materials are exactly the active materials with positive sales |
| Stock.CriticalListDistinct | app.py:253-264 | no material is listed twice |
| Risk.ItemTier | app.py:311-318 | a row is `Alto` iff its material has zero coverage; it is `Médio` iff its material has 1-6 days of coverage and no zero-coverage entry (Alto overrides Médio) |
| Risk.ItemTierByCoverage | app.py:311-318 | with one entry per material, a row takes its material's tier: 0 days gives Alto, 1-6 gives Médio, 7 or more gives Baixo; no item or an unlisted material gives Baixo |
| Risk.OrderTier | app.py:320-322 | an order's tier ranks no lower than each of its rows' tiers and, unless Baixo, is the tier of one of them |
| Risk.OrderTierHighWins | app.py:320-322 | one Alto row makes its order Alto whatever its other rows are |
| Risk.OrderTierLowWhenUnlisted | app.py:320-322 | an order all of whose rows are Baixo is Baixo |
| Risk.TierTally | app.py:326-334 | over any list of (order, status) pairs, the tally is the number of pairs whose order is in the tier and the number of those that are cancelled; the second never exceeds the first, and the first is 0 iff no listed pair's order is in the tier |
| Risk.TierOrders | app.py:326-334 | a tier's pair count is the number of distinct (order, status) pairs of the table whose order is in the tier |
| Risk.TierCanceled | app.py:326-334 | a tier's cancelled count is the number of distinct (order, status) pairs whose order is in the tier and whose status is `canceled`; it never exceeds the tier's pair count |
| Risk.TierOrdersZero | app.py:326-334 | a tier has no (order, status) pair iff no row's order is in it |
| Risk.CancelRateByTier | app.py:326-335 | a tier's rate is absent iff no order is in the tier; otherwise it lies in [0, 100] and is cancelled pairs over pairs, times 100 |
| Risk.TierRateAsWritten | app.py:311-335 | as written, the tier rates fail whenever the critical list does, and with no active row always |
| Risk.RiskList | app.py:245-313 | the corrected input of the tiers: an empty list when no row is active, otherwise the critical list; it fails only when that list does |
| Risk.TierRate | app.py:311-335 | corrected tier rates fail only for a NaN coverage, and agree with the as-written ones whenever the list exists |
| Risk.TierRateWithoutActiveRows | app.py:311-335 | with no active rows every order is Baixo: only Baixo has a rate, and it has one iff there is a row |
| Risk.SingleDiscontinuedRow | app.py:245 | a table whose one row is discontinued has no active row |
| Risk.UncancelledSingleRow | app.py:326-334 | with an empty critical list, a one-row table whose order is not cancelled has one `Baixo` pair and no cancelled pair |
| Risk.NoActiveRowsCounterexample | app.py:245-311 | one order whose only item is discontinued: as written the rates fail; corrected, Baixo has rate 0 |
| Basket.RefOrders | app.py:184 | the reference orders are exactly the orders with a row named after the reference product, each once |
| Basket.Companions | app.py:185-188 | the companion rows are exactly the rows of reference orders that name another product |
| Basket.Tally | app.py:187-189 | each companion name is paired with its row count among the companions |
| Basket.Ranking | app.py:189 | the ranking is a permutation of the tally with counts non-increasing |
| Basket.Associated | app.py:189 | at most five entries, the first ones of the ranking |
| Basket.CompanionCount | app.py:183-189 | a product's count among the companions is its number of rows whose order also has a row of the reference product |
| Basket.RankedEntry | app.py:183-189 | every ranked entry is another product with its co-occurrence count, which is positive |
| Basket.AssociatedSpec | app.py:183-189 | the reference product is never listed; each count is the co-occurrence count and positive; counts do not increase down the list |
| Basket.AssociatedDistinct | app.py:187-189 | no product is listed twice |
| Basket.AssociatedTop | app.py:187-189 | a product that shares an order with the reference product is listed with its count, or the list is full and every listed count is at least its count |
| Cancellation.UniqueOrders | app.py:505 | the first rows per order have pairwise distinct orders |
| Cancellation.UniqueOrdersSpec | app.py:505-506 | there is one kept row per distinct order; each kept row is the first row of the table with its order id, and every order keeps one |
| Cancellation.OverallCancelRate | app.py:505-508 | the overall rate is absent (division by zero) iff there is no row; otherwise it is in [0, 100] and is cancelled orders over distinct orders, times 100 |
| Cancellation.CarrierGroup | app.py:516-518 | a carrier's group is exactly the rows naming that carrier; blank carriers are in no group |
| Cancellation.CarrierCancelOf | app.py:516-518 | a carrier's rate lies in [0, 100] and is cancelled rows over its rows, times 100; its volume is its row count |
| Cancellation.RankedCarriers | app.py:516-518 | the bars of all carriers with a row, ordered by rate descending |
| Cancellation.RankedCarrierEntry | app.py:516-518 | each ranked bar is the bar of a carrier that names some row |
| Cancellation.CarrierCancelRates | app.py:516-524 | the shown bars stay ordered by rate descending after the volume filter |
| Cancellation.CarrierCancelRatesSound | app.py:516-524 | every shown bar is its carrier's bar and has more than 50 rows |
| Cancellation.CarrierCancelRatesComplete | app.py:521-524 | every carrier with more than 50 rows is shown |
| Cancellation.CarrierCancelRatesDistinct | app.py:516-524 | no carrier is shown twice |
| Logistics.PrepDays | app.py:453 | the preparation time exists iff the order and shipment days do, and the order day plus it is the shipment day |
| Logistics.TransitDays | app.py:454 | the transit time exists iff the shipment and delivery days do, and the shipment day plus it is the delivery day |
| Logistics.InFunnel | app.py:457 | an order passes the funnel filter iff its order, shipment and delivery days are all present and in non-decreasing order |
| Logistics.FunnelRows | app.py:448-457 | a first row per order is kept iff order, shipment and delivery days are all present and in order; each order at most once |
| Logistics.FunnelSplitsDelivery | app.py:453-457 | for a kept order, preparation plus transit days equal the delivery time, which is the cleaned order's `tempo_entrega_dias` |
| Logistics.SlaRows | app.py:601-602 | a first row per order is kept iff its delivery and deadline days are both present; each order at most once |
| Logistics.IsLate | app.py:608 | a delivery is late iff both days are present and it came at least one day after the deadline |
| Logistics.LateExamples | app.py:608 | delivery on the deadline day is on time; one day later is late |
| Logistics.SlaGroup | app.py:600-611 | a carrier's SLA rows are exactly the first rows per order that name it and have both days, one per order |
| Logistics.SlaOf | app.py:609-615 | a carrier has a positive number of deliveries, at most that many late, and a late rate in [0, 100] equal to late over deliveries, times 100 |
| Logistics.SlaByCarrier | app.py:611-615 | one line per carrier of the SLA rows, no carrier twice, each holding that carrier's figures |
| Logistics.SlaByCarrierMembers | app.py:611-615 | a carrier has a line iff some SLA row names it |
| Logistics.SlaChart | app.py:618 | the chart's bars are the SLA lines, rearranged with the late rate descending |
| Logistics.SlaChartSound | app.py:611-618 | each bar is the line of a carrier with an SLA row |
| Logistics.SlaChartComplete | app.py:611-618 | every carrier with an SLA row has its line among the bars |
| Display.Truncate | app.py:130 | a name that fits is kept; a longer one keeps its first `n` characters followed by `...` (the same rule at width 35 on line 162 and width 45 on line 194) |
| Display.TruncateLength | app.py:130 | a label is at most the width plus three, and at most the name plus three |
| Display.TruncateIdempotent | app.py:130 | shortening a shortened label changes nothing |
| Display.TruncateInjectiveOnShort | app.py:130 | distinct names that fit keep distinct labels |
| Display.TruncateMerges | app.py:130 | long names that agree on the first `n` characters share a label |
| Display.TruncateExample | app.py:130 | a 50-character name becomes 45 characters plus `...` at width 45; `Capa` is unchanged at the width 35 of line 162 |

## Left out

- Streamlit widgets, Plotly figures, file loading and caching, and the GeoJSON map with its state table. These are presentation and I/O. The reference product of the basket analysis is a parameter, in place of the select box.
- Datetime parsing and normalisation, the daily `resample`, the year-month period and the weekday mapping. The model takes dates as day numbers, and the order date also as a second of its day.
- The order of group labels: pandas' `groupby` sorts its keys (lines 84, 252, 516, 611), while the model lists them in order of first appearance. Every later step either re-sorts (the critical list, the carrier charts) or does not depend on the order, so only ties among equal sort keys could come out differently.
- Means: the lead-time mean of the supply rollup is modelled. The geographic, funnel-per-carrier and weekday means and the lead-time histogram are not, because they only feed charts.
- The OLS trendline of the discount scatter, and the quantity column of that scatter's hover data.
- The top-10 and bottom-10 revenue rankings (lines 118-166) are not part of this model; only their name truncation is.
- Floating point: every quantity is an exact real, so float rounding in sums, divisions and the `+ 0.0001` epsilon is not modelled.
- Cleaning.ToNumeric and Cleaning.TruncateToInt: identifiers are unbounded integers. In pandas the coerced id column (line 69) is float64 once any id is NaN, so ids above 2^53 lose precision, and `astype(int)` (line 71) is int64, so values at or above 2^63 are out of range. Neither limit is modelled.
- pandas tie-breaking between equal sort keys in `sort_values` and `value_counts`. Contracts state only the order on the keys, plus that rows are kept as a permutation.
- Cleaning.ToNumeric: parses only integer text (an optional sign and digits). Decimal or exponent text that pandas would also accept reads as NaN here.
- Stock.CoverageDays: requires positive average sales. The source computes coverage for every material before dropping the non-selling ones. The model computes it only for the kept ones, which are the only ones that reach the list.
- Stock.CriticalList: `Err(UndatedSales)` stands for the exception the integer cast raises on a NaN coverage. The model does not say where the script stops after it.
- Cancellation.OverallCancelRate: `None` stands for the `ZeroDivisionError` an empty table raises.
- Joins.Unify: the whole cleaning-and-join pipeline is stated through its parts. It has no contract of its own.

## Findings

| source | as written | input that shows it | evidently intended | confidence | as-written member | corrected member |
|---|---|---|---|---|---|---|
| app.py:311 | `produtos_criticos` is assigned only inside `if not df_ativo.empty`; the risk analysis at line 311 reads it unconditionally, so with no active row the script stops with a `NameError` | one order whose only item's supply row is flagged discontinued | the `else` branch only warns, so the page is meant to go on; with no critical list every order is `Baixo` | not executed; medium | Risk.TierRateAsWritten, Risk.NoActiveRowsCounterexample | Risk.TierRate, Risk.TierRateWithoutActiveRows |
