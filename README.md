# India delivery-review dashboard: a verified model of its query layer

The dashboard reads a table of delivery reviews (agent name, city, order type, rating), attaches
each city's coordinates from a fixed table of ten Indian cities, and answers a handful of
queries over the rows selected by an agent filter and an order-type filter: per-city statistics
(mean rating, order count, coordinates), the order-type frequency distribution, the busiest and
the best-rated city, and summary figures. There are three copies of this logic:

- `delivery_api.py`: class `DeliveryAPI`, which loads the table and answers four queries;
- `api.py`: another class `DeliveryAPI`, whose one query filters by agent, city, order type and an
  inclusive rating range;
- `dashboard.py`: the Panel application, which repeats the filter in every view and adds the
  rating colour bands of the map markers, the widget option lists and the summary panel.

The model keeps the structure of the program:

| file | module | models |
|---|---|---|
| `wrappers.dfy` | `Wrappers` | `Option` and `Result` |
| `seqs.dfy` | `Seqs` | boolean masks (`Where`), group-by, column projection, occurrence counts, `unique()` (`Distinct`), first maximum (`idxmax`) |
| `strings.dfy` | `Strings` | Python's code-point order on `str` and the sorted key list of a pandas `groupby` |
| `reviews.dfy` | `Reviews` | the review record, the ten-city coordinate table, columns, sum and mean of ratings |
| `loading.dfy` | `Loading` | attaching coordinates, failing on the first unknown city |
| `filtering.dfy` | `Filtering` | the agent/order-type filter and the two readings of "no filter" |
| `aggregates.dfy` | `Aggregates` | `groupby('Location').agg(...)`, per-city order volume, `value_counts()` |
| `ranking.dfy` | `Ranking` | the top statistics, `mode()`, `nunique()` and the summary figures |
| `delivery_api.dfy` | `DeliveryService` | the `DeliveryAPI` class of `delivery_api.py` |
| `api.dfy` | `Api` | the `DeliveryAPI` class of `api.py` |
| `dashboard.dfy` | `Dashboard` | the views of `dashboard.py` |
| `scenarios.dfy` | `Scenarios` | a two-row Delhi table and a load that meets an unknown city |

Ratings and coordinates are exact `real`s. A filter argument is read once into
`FilterVal = NoFilter | Exact(value)`: the API classes treat `None`, `''` and `'All'` as
`NoFilter` (`if agent and agent != 'All'`), the dashboard only `'All'` (`if agent != 'All'`).

Orderings follow the code. A pandas `groupby` lists its keys in ascending order and `idxmax`
returns the first maximal label, so among cities with equal counts (or equal mean ratings) the
city whose name sorts first wins. `Series.mode()` returns the most frequent values sorted, so
`mode().iloc[0]` is the smallest of the most frequent order types, not the first one seen. The
model states the rule the code applies.

The loaded table is `self.data` of a class in both API files. Loading in `delivery_api.py`
can fail (a `KeyError` from the lookup of an unknown city), so construction is the static
method `DeliveryService.DeliveryApi.Open`, which returns a `Result`. The queries only read the
table (they work on a copy), so they are functions with a `reads this` frame and cannot change
it. The views of `dashboard.py` take the module-level table and the two widget values as
parameters.

## Model

| member | source | states |
|---|---|---|
| Reviews.TenCities | delivery_api.py:9-20 | the static coordinate table holds exactly ten cities |
| Reviews.Mean | dashboard.py:301 | `Series.mean()` of the ratings of a non-empty table lies between its lowest and its highest rating |
| Reviews.MeanWithin | delivery_api.py:41 | the mean of ratings that all lie in [lo, hi] lies in [lo, hi] |
| Loading.FirstUnknown | delivery_api.py:23 | the position of the first row whose city is not in the table: all rows before it are known |
| Loading.AttachCoordinates | delivery_api.py:22-24 | the load succeeds exactly when every city is known; row i is then review i with its city's coordinates; otherwise it fails naming the first unknown city |
| Loading.LoadedRowsAreGeocoded | dashboard.py:29-31 | after a successful load every row carries the coordinates of its city and the original review |
| DeliveryService.DeliveryApi.FromRows | delivery_api.py:6 | the table is stored as given; it must already carry its cities' coordinates, so the object satisfies the class invariant that every row is geocoded |
| DeliveryService.DeliveryApi.Open | delivery_api.py:4-24 | construction succeeds exactly when every city is known, giving a fresh object whose rows are the reviews with their coordinates; otherwise it fails with the first unknown city |
| DeliveryService.DeliveryApi.GetFilteredData | delivery_api.py:26-35 | a row is returned exactly when it is in the table and matches every argument that is not `None`, `''` or `'All'`; each kept row once, in table order; with no constraint the whole table; geocoded rows stay geocoded |
| DeliveryService.DeliveryApi.GetCityStats | delivery_api.py:37-45 | one entry per city of the filtered rows, ascending by name, with the city's number of filtered rows (positive), their mean rating and the city's coordinates; the counts add up to the number of filtered rows |
| DeliveryService.DeliveryApi.GetOrderTypeDistribution | delivery_api.py:47-54 | each order type of the filtered rows exactly once with its number of rows, counts non-increasing and adding up to the number of filtered rows |
| DeliveryService.DeliveryApi.GetTopStats | delivery_api.py:56-76 | the `('N/A', 0, 'N/A', 0)` sentinel on an empty filter result; otherwise a present city with the largest order count and that count, and a present city with the largest mean rating and that mean, ties to the name that sorts first |
| Filtering.Mask | delivery_api.py:30-31 | one mask step keeps what the predicate selects; with no filter the rows are unchanged |
| Filtering.Filter | delivery_api.py:28-33 | a row is kept exactly when it is in the input and matches both the agent and the order type |
| Filtering.FilterSelects | delivery_api.py:28-35 | the kept rows are exactly the matching rows, each once, in source order |
| Filtering.FilterOrderIrrelevant | delivery_api.py:30-33 | applying the order-type mask before the agent mask gives the same rows |
| Filtering.FilterNothing | delivery_api.py:28-35 | with neither constraint the table comes back unchanged, in order |
| Filtering.FilterKeepsGeocoded | delivery_api.py:28-33 | filtering geocoded rows leaves geocoded rows |
| Filtering.ApiFilter | delivery_api.py:30 | `None`, `''` and `'All'` mean no filter; any other value matches exactly that value |
| Filtering.WidgetFilter | dashboard.py:95-98 | only `'All'` means no filter; every other value, the empty string included, matches exactly that value |
| Filtering.EmptyStringReadings | dashboard.py:95 | the empty string disables the API filter but is an exact-match constraint in the dashboard |
| Strings.Less | delivery_api.py:72 | Python's `str` order, which orders the `groupby` keys and so settles `idxmax` ties: a proper prefix sorts first, a string never sorts before its own prefix, and otherwise the first differing character decides |
| Strings.LessTransitive | delivery_api.py:40 | the order on city names is transitive |
| Strings.SortedKeys | delivery_api.py:40 | the group-by keys: ascending, and exactly the values of the column |
| Seqs.Where | delivery_api.py:31 | `df[mask]`: every kept row is a row of the table satisfying the mask, every such row is kept, and there are no more rows than in the table |
| Seqs.WhereSelects | delivery_api.py:30-33 | a mask keeps each satisfying row exactly once, at increasing source positions, and no other row |
| Seqs.Distinct | dashboard.py:57 | `unique()`: no repetitions, and exactly the values of the column |
| Seqs.DistinctFirstSeen | dashboard.py:57 | `unique()` lists values in the order of their first appearance |
| Seqs.FirstMaxBy | delivery_api.py:72 | `idxmax`: a position of a maximum with every earlier value strictly smaller |
| Aggregates.Group | delivery_api.py:40 | the rows of one city are exactly the rows with that location |
| Aggregates.CityMean | delivery_api.py:41 | `groupby('Location')['Rating'].mean()` for one city lies between the lowest and the highest rating among that city's rows |
| Aggregates.GroupSize | delivery_api.py:44 | a city's group has as many rows as the city occurs in the `Location` column |
| Aggregates.CityStats | delivery_api.py:40-45 | one entry per city present, ascending by name, each with the city's mean rating, first-row coordinates and row count (positive and equal to its occurrences); counts add up to the number of rows |
| Aggregates.CityStatsCoordinates | delivery_api.py:42-43 | on a geocoded table each entry's coordinates are its city's coordinates from the static table |
| Aggregates.CityMeanInRange | delivery_api.py:41 | ratings in [0, 5] give per-city means in [0, 5] |
| Aggregates.OrderVolume | dashboard.py:162 | one count per city, ascending by name, equal to the city's number of rows; the counts add up to the number of rows |
| Aggregates.OrderVolumeMatchesCityStats | dashboard.py:101-106 | the order volume and the per-city statistics list the same cities in the same order with the same counts |
| Aggregates.InsertByCount | delivery_api.py:51 | inserting into a list sorted by decreasing count keeps it sorted; the result holds the old entries plus the new one (as a multiset), so it is one entry longer and its counts total one more count |
| Aggregates.SortByCount | delivery_api.py:51 | the result is sorted by decreasing count and is a permutation of the input (equal multisets), with the same length, members and total |
| Aggregates.SortKeepsDistinctKeys | delivery_api.py:51 | sorting by count never duplicates a key |
| Aggregates.OrderTypeDistribution | delivery_api.py:50-54 | counts non-increasing, each order type of the rows exactly once with its positive number of rows, counts adding up to the number of rows |
| Ranking.FirstMaxCity | delivery_api.py:72-75 | the `idxmax` of a per-city series has the largest value, and among cities with that value the name that sorts first |
| Ranking.Top | delivery_api.py:60-76 | sentinel on an empty table; otherwise the busiest city with its count and the best-rated city with its mean, both maximal over all cities present, ties to the name that sorts first |
| Ranking.Mode | dashboard.py:304 | a value of the column with the largest number of occurrences, the smallest such value on a tie |
| Ranking.CountDistinct | dashboard.py:302-303 | `nunique()`: the number of distinct values, at most the number of rows and positive on a non-empty column |
| Ranking.Summarize | dashboard.py:300-304 | total orders is the number of rows; no average on an empty table, else the mean; distinct cities and agents; the sentinel `'N/A'` or a most frequent order type |
| Ranking.AverageInRange | dashboard.py:301 | ratings in [0, 5] give an average rating in [0, 5] |
| Ranking.TopWithinSummary | dashboard.py:248 | the busiest city's count never exceeds the total number of orders, and a non-empty table covers at least one city |
| Api.RangeMask | api.py:22-27 | the rating mask keeps exactly the rows with `lo <= rating <= hi`; without a range the rows are unchanged |
| Api.Query | api.py:10-27 | the four successive masks keep exactly the rows satisfying the conjunction of the four constraints |
| Api.QueryOrderIrrelevant | api.py:12-27 | applying the masks in the reverse order gives the same rows |
| Api.EmptyRange | api.py:22-27 | a range with `lo > hi` lets no row through |
| Api.QuerySelects | api.py:8-29 | the rows passing the API arguments, each once, in table order; all-unconstrained arguments give the table; `lo > hi` gives nothing |
| Api.DeliveryApi.constructor | api.py:4-6 | the table is stored as given |
| Api.DeliveryApi.GetDataByFilters | api.py:8-29 | a row is returned exactly when it is in the table, matches every argument that is not `None`, `''` or `'All'`, and lies in the inclusive rating range when one is given; each once, in table order; with no constraint the table; with `lo > hi` nothing |
| Dashboard.FilterFrame | dashboard.py:94-98 | a row is kept exactly when it is in the table and matches each widget value other than `'All'`; each once, in order; `'All'`/`'All'` keeps the table |
| Dashboard.FilterAgreesWithApi | dashboard.py:210-214 | for widget values other than the empty string the dashboard filter and `get_filtered_data` keep the same rows |
| Dashboard.MarkerColour | dashboard.py:125-130 | red exactly below 3.0, orange exactly on [3.0, 4.0), green exactly from 4.0 |
| Dashboard.ColourMonotone | dashboard.py:125-130 | a higher rating never gets a worse colour band |
| Dashboard.DrawMarkers | dashboard.py:124-149 | one marker per row of the per-city statistics, in order, with its location, coordinates, mean rating, order count and band colour |
| Dashboard.CreateMapPane | dashboard.py:91-151 | the markers of the filtered rows: one per city, ascending by name, with the city's count, mean rating and colour, at the city's coordinates on a geocoded table |
| Dashboard.MapPaneFacts | dashboard.py:101-106 | markers drawn from the per-city statistics of the filtered rows are one per city with its count, mean and colour |
| Dashboard.MarkersCoordinates | dashboard.py:145 | on geocoded rows every marker stands at its city's coordinates |
| Dashboard.CreateMainPanel | dashboard.py:207-233 | the markers are those of the filtered rows: one per city, ascending, with each city's count, mean and colour, placed at the cities' coordinates on a geocoded table; the chart is the order volume of the same rows; both list the same cities in the same order with the same counts, which add up to the number of filtered rows |
| Dashboard.MapMatchesChart | dashboard.py:162 | the markers and the order-volume chart agree city by city |
| Dashboard.StatCards | dashboard.py:246-253 | the sentinel on an empty selection; otherwise the busiest and the best-rated city with their values, maximal, ties to the name that sorts first |
| Dashboard.StatCardsAgreeWithApi | dashboard.py:239-253 | for widget values other than the empty string the stat cards equal `get_top_stats` |
| Dashboard.SummaryStats | dashboard.py:292-305 | total orders, average rating (none when empty), distinct cities and agents, most common order type or `'N/A'`, of the filtered rows; the whole table under `'All'`/`'All'` |
| Dashboard.DetailedOrderTypes | dashboard.py:369 | the order-type table of the filtered rows: each type once with its number of rows, counts non-increasing and adding up to the number of rows |
| Dashboard.FilterOptions | dashboard.py:57 | `'All'` followed by every value of the column exactly once, in order of first appearance |
| Dashboard.AgentOptions | dashboard.py:57 | `'All'` followed by every agent name of the table exactly once, in order of first appearance |
| Dashboard.OrderTypeOptions | dashboard.py:69 | `'All'` followed by every order type of the table exactly once, in order of first appearance |
| Dashboard.AgentOptionNonEmpty | dashboard.py:57 | selecting any listed agent leaves at least one row |
| Dashboard.OrderTypeOptionNonEmpty | dashboard.py:69 | selecting any listed order type leaves at least one row |
| Scenarios.DelhiStats | delivery_api.py:40-45 | two Delhi rows rated 4.5 and 2.0 give one entry: Delhi, two orders, mean 3.25 |
| Scenarios.DelhiSummary | dashboard.py:300-304 | the same rows give two orders, average 3.25, one city, two agents and most common order type `Express` |
| Scenarios.UnknownCityFails | delivery_api.py:23 | a row in `Atlantis` makes the load fail naming `Atlantis` |

## Left out

- Reading the CSV file (`pd.read_csv`): the table is a parameter.
- Panel, Folium, Plotly and Bokeh: HTML panes, the map object, popups and tooltips, the pie chart, layouts, tabs, CSS, notifications, `pn.depends` reactivity and `pn.serve`. The map is its list of markers and the chart its list of counts.
- `filtered_df.describe()` in the detailed view: standard deviations and quantiles over floats.
- Number formatting (`:.2f`, `:,`) in cards, popups and the summary panel.
- Floating point: ratings, means and coordinates are exact reals, so a mean of 3.25 is exactly 3.25.
- The `NaN` average of an empty selection is `None` in `Ranking.Summarize`; the source would print `nan`.
- Aggregates.OrderTypeDistribution: the order among order types with equal counts is not stated, since `value_counts` leaves it to pandas internals; the model sorts stably by count.
- Aggregates.CityStats: `'Order Type': 'count'` counts non-null values; the model takes every order type to be present, so the count is the number of rows.
- Api.DeliveryApi.GetDataByFilters: a `rating_range` that is not a pair (Python raises on unpacking) and `NaN` ratings are not modelled; a falsy range is `None`.
- The in-place addition of the coordinate columns to the module-level table of `dashboard.py` (lines 30-31) is modelled as a value: `Loading.AttachCoordinates` returns the new rows, which are passed to each view.
- The legend of `dashboard.py` (lines 48-50) calls the middle band yellow; the markers are drawn orange (line 119), and the model follows the markers.
- The `on_change` notification handler and the selection widgets themselves: the widget values are parameters of each view.
