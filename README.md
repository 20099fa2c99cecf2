# Regional filtering and aggregation of the marriage/divorce dashboard

`DashboardV3.py` is a Streamlit dashboard over Thai marriage and divorce
statistics. Besides widgets, charts and forecasting calls, it holds one piece
of real logic. That logic turns the regional table — rows of
`(Year_BE, Province, Marriage, Divorce)` — into the sidebar's selector lists,
a filtered table, KPI totals, top-5 province rankings, and two region rankings:
each region's share of all marriages, and each region's divorce rate. This
project models that logic in Dafny and proves what each step promises.

Modules, in dependency order:

- `Wrappers`: `Option`. A Python `KeyError` on a dictionary lookup is `None`.
- `Numbers`: the results of pandas float division. `x / 0` is `inf` when
  `x > 0` and `NaN` when `x == 0`; it does not raise. Finite values are exact
  reals. `AtLeast` is the order `sort_values(ascending=False)` uses: `inf`
  first, then the finite values from the largest down, `NaN` last.
- `Sorting`: the descending sort. pandas' default sort is not stable, so the
  contracts say only "a permutation, in descending order" and nothing about
  ties. `SumOf` is a column sum of real values.
- `Regional`: rows, boolean masks (`Criterion`), `df[mask]` (`Filter`), region
  schemes, the province→region map, the guarded divorce rate, the KPI cards
  and the sidebar filter.
- `Grouping`: `groupby(key).sum()` over labelled counts.
- `Rankings`: the per-province and per-region aggregations with their sorts.
- `TextOrder`: Python's `str` ordering and `sorted(set(...))`.
- `Selectors`: the region list, the province list and the default year range.
- `ForecastPrep`: the saturation cap and floor added to the divorce series
  before the logistic-growth forecast.

A region scheme (one value of `REGION_SCHEMES`) is a sequence of
`(region, provinces)` pairs, so the dictionary's iteration order is kept. The
loops of the source are methods with loop invariants. These are the dictionary
filling in `create_province_to_region_mapping` and the `extend` loop that
collects province options. The sidebar filter, which reassigns `df_filt` in
two steps without a loop, is a method that reassigns its result in the same
two steps. Each method is proved equal to, or characterised by, a function.
The pandas pipelines are functions.

## Model

| member | source | states |
|---|---|---|
| Regional.InvertKeys | DashboardV3.py:460-466 | a province is a key of the map exactly when some region of the scheme lists it |
| Regional.InvertLastWins | DashboardV3.py:462-465 | a mapped province's region lists it, and no region later in dictionary order lists it: the last listing wins because the loop reassigns |
| Regional.ProvinceToRegion | DashboardV3.py:460-466 | the nested filling loops build exactly `Invert(scheme)` |
| Regional.DivorceRate | DashboardV3.py:469-471 | 0 when marriages <= 0; otherwise rate × marriages = divorces × 100; never negative for non-negative inputs |
| Regional.DivorceRateAtMost100 | DashboardV3.py:469-471 | with marriages > 0, the rate is at most 100 exactly when divorces do not exceed marriages |
| Regional.Filter | DashboardV3.py:763-766 | a mask never adds rows |
| Regional.FilterMembers | DashboardV3.py:763-766 | a row is kept exactly when it is an input row that satisfies the mask; for the year mask that means `lo <= Year_BE <= hi` |
| Regional.FilterConcat | DashboardV3.py:763-766 | filtering commutes with concatenation, so the kept rows stay in their original order |
| Regional.FilterFilter | DashboardV3.py:763-771 | filtering the filtered frame again equals one filter by both masks |
| Regional.FilterAllHold | DashboardV3.py:763-766 | a mask every row satisfies removes nothing |
| Regional.FilterSplit | DashboardV3.py:955-958 | the rows a mask keeps and the rows it drops together carry every count, so dropping unmapped rows loses exactly their counts |
| Regional.Lookup | DashboardV3.py:771 | `REGION_SCHEMES[scheme][region]`: None exactly when no region has that name, otherwise the first matching entry's province list |
| Regional.LookupOwn | DashboardV3.py:715 | with distinct region names, as in a dict, each region of the scheme looks up its own province list |
| Regional.KpiTotals | DashboardV3.py:777-779 | the KPI cards are the column sums of the filtered rows and the guarded rate of those sums |
| Regional.FilterRegional | DashboardV3.py:763-771 | None when the table lacks the year column, since the year mask raises there; otherwise the year filter then the province filter, or else the region filter. A chosen province keeps exactly that province's rows in range. Otherwise a chosen region keeps exactly the rows in range whose province the region lists. With both "all" only the year filter applies. An unknown region is the KeyError case |
| Grouping.GroupBy | DashboardV3.py:1026-1034 | one group per distinct key, and each group's sums are the sums over the entries with that key |
| Grouping.GroupByTotal | DashboardV3.py:1026-1034 | grouping preserves the column totals |
| Numbers.Percent | DashboardV3.py:972-974 | `num / den * 100`: finite exactly when den > 0, with value × den = num × 100; `inf` when den = 0 < num; `NaN` when both are 0 |
| Sorting.SortDesc | DashboardV3.py:976 | the result is a permutation of the input, in descending key order, and keeps distinctness |
| Sorting.SumOfPermutation | DashboardV3.py:971-976 | a column sum does not depend on the row order |
| Rankings.ProvinceGroups | DashboardV3.py:869-871 | one group per province of the rows, holding that province's sums |
| Rankings.RegionGroups | DashboardV3.py:1019-1034 | after mapping provinces to regions and dropping unmapped rows, one group per region the mapped rows fall into. Each group holds the sums over the rows of that region. The group totals equal the sums over all mapped rows |
| Rankings.ProvinceRanking | DashboardV3.py:869-872 | one entry per province of the rows, with its summed count, in descending order |
| Rankings.TopProvinces | DashboardV3.py:869-884 | at most 5 entries, one per distinct province, each with its summed count over the filtered rows, descending. It keeps every province when there are fewer than 5. No omitted province has a larger sum than the smallest included one |
| Rankings.RegionMarriageShares | DashboardV3.py:952-976 | one entry per region of the mapped rows. Each entry has that region's marriages and `Percent(marriages, total mapped marriages)`. The entries are sorted by share, descending, and are a permutation of the unsorted frame |
| Rankings.SharesSumTo100 | DashboardV3.py:971-974 | when the mapped marriages total more than 0, every share is finite and the shares sum to 100 |
| Rankings.SharesWithoutMarriages | DashboardV3.py:971-974 | when the mapped marriages total 0, the unguarded division makes every share NaN |
| Rankings.RegionDivorceRates | DashboardV3.py:1017-1040 | one entry per region of the mapped rows. Each entry has the region's combined marriages and divorces and `Percent(divorces, marriages)` of those combined counts. The entries are sorted by rate, descending, and are a permutation of the unsorted frame |
| Rankings.OneRegion | DashboardV3.py:1019-1034 | when every province maps to one region and some row is mapped, the ranking is not empty and every entry is that region |
| Rankings.CombinedRateScenario | DashboardV3.py:1036-1038 | two provinces of one region with 10/5 and 90/9 marriages/divorces give a region rate of 14, not the mean 30 of the provinces' own rates |
| TextOrder.LessTotal | DashboardV3.py:717 | Python's string order is total on distinct strings |
| TextOrder.LessTransitive | DashboardV3.py:717 | Python's string order is transitive |
| TextOrder.Without | DashboardV3.py:717 | `set(...) - {"ทั้งหมด"}`: exactly the other elements |
| TextOrder.SortedUnique | DashboardV3.py:717 | `sorted(set(s))`: the same elements as s, strictly ascending, hence without duplicates |
| TextOrder.AscendingUnique | DashboardV3.py:717 | two strictly ascending lists with the same elements are equal, so the sorted option list is determined by its element set |
| Selectors.RegionOptions | DashboardV3.py:701 | "all" followed by the scheme's regions in dictionary order |
| Selectors.RegionOptionsKnown | DashboardV3.py:701-715 | every region the selector offers is "all" or can be looked up in the scheme |
| Selectors.ProvinceOptions | DashboardV3.py:710-717 | the list starts with "all" and continues strictly ascending. A province other than "all" appears exactly when the scheme offers it: anywhere in the scheme when the region is "all", otherwise in the region's list. An unknown region is the KeyError case |
| Selectors.MinYear | DashboardV3.py:727 | the earliest year of a non-empty table |
| Selectors.MaxYear | DashboardV3.py:728 | the latest year of a non-empty table |
| Selectors.DefaultYearRange | DashboardV3.py:726-737 | the earliest and latest year of the table, or (2560, 2565) when the table is empty or lacks the year column |
| Selectors.DefaultRangeKeepsAll | DashboardV3.py:726-766 | the default range is never empty, and the year filter with it removes no row |
| ForecastPrep.Largest | DashboardV3.py:300 | `max()` of a non-empty series: an element at least as large as every element |
| ForecastPrep.SaturationBounds | DashboardV3.py:300-303 | the floor is 0. The cap is NaN exactly for an empty series; otherwise it is 1.2 times some observation and at least 1.2 times every observation |
| ForecastPrep.CapAboveSeries | DashboardV3.py:300-303 | for non-negative observations, every observation lies between the floor and the cap |

## Left out

- Streamlit UI: widgets, tabs, metric cards, error banners, CSS, the banner
  image and `format_number`. These are presentation and I/O. The selected scheme, region,
  province and year range are parameters.
- Plotly figures: they are an external plotting library.
- CSV loading and `st.cache_data` (`load_data`, `load_regional_data`,
  `load_metrics`, `load_sarimax_rolling`, `load_future_forecasts`): file I/O
  and framework caching. The table's rows are a parameter. Whether the year
  column exists is the boolean `hasYearColumn`.
- A table without the `Year_BE` column has no year in its rows, so it is not
  modelled as rows. Only its consequences are. `Selectors.DefaultYearRange`
  then gives (2560, 2565), as at DashboardV3.py:726-737. The year mask at
  DashboardV3.py:763-766 raises on such a table, because it lies outside the
  try block at 638-667. `Regional.FilterRegional` then returns None.
- The empty table never reaches the sidebar: DashboardV3.py:661-663 calls
  `st.stop()` for it. The empty-table branch of `Selectors.DefaultYearRange`
  is modelled as written but cannot be reached in the source.
- The `REGION_SCHEMES` tables are data, not logic. The model takes a scheme as a parameter
  instead of a scheme name.
- Prophet fitting and prediction, the sklearn-based forecast metrics and the
  SARIMAX averages: these are opaque foreign code and floating point. Only
  the cap/floor preparation before the fit is modelled.
- The commented-out scenario, simulation and tuning helpers are dead code.
- Floating point: rates, shares and the saturation cap are exact reals, so
  rounding is not modelled. In particular `ForecastPrep.Headroom` is the exact
  6/5, which the Python float `1.2` only approximates. The counts are natural numbers. Missing or non-integer
  `Marriage`/`Divorce` cells are not modelled.
- Sorting.SortDesc: states nothing about the order of ties. pandas' default
  sort is unstable, so the source does not fix that order either. The model
  sorts by insertion.
- Rankings.TopProvinces: which of several provinces tied at the fifth place
  is kept is left open, for the same reason.
- Rankings.RegionDivorceRates: the KPI rate at DashboardV3.py:779 goes
  through `calculate_divorce_rate`, which is guarded. The region rate at
  1036-1038 divides without a guard. A region with 0 marriages therefore gets
  `inf` (or `NaN` with 0 divorces), sorted first (or last). This case is
  modelled, not excluded by a precondition.
- ForecastPrep.SaturationBounds: `max()` of an empty column is NaN, so the cap
  is NaN. The model does not reject the empty series.
- The columns added to the grouped frames (DashboardV3.py:972 and 1036) are
  modelled as building a new sequence of records. The grouped frame is a
  fresh copy, so there is no aliasing for an in-place update to show.
- pandas sorts `groupby` keys. Here each group sits at its label's last
  occurrence (`Grouping.KeysOf` skips a label that occurs again later). The
  `sort_values` that follows makes this order irrelevant except among ties,
  which are unspecified anyway.
- Region schemes are sequences of pairs, so a region name could occur twice,
  which a Python dict rules out. `Regional.RegionsDistinct` states the dict's
  property. `Regional.LookupOwn` proves that under it each region looks up
  its own province list. The other members do not need it.
